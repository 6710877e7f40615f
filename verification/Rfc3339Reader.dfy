/** Reading a printed timestamp back, by the columns of RFC 3339. */
module Rfc3339Reader {
  import opened Calendar
  import opened Rfc3339

  /** The number that the digits in columns [from, to) stand for. */
  function NumberAt(text: string, from: nat, to: nat): int
    requires from <= to <= |text|
  {
    if from == to then 0 else 10 * NumberAt(text, from, to - 1) + (text[to - 1] as int - '0' as int)
  }

  /** Four columns of year; a minus sign may take the first. */
  function YearAt(text: string): int
    requires |text| >= 4
  {
    if text[0] == '-' then -NumberAt(text, 1, 4) else NumberAt(text, 0, 4)
  }

  /** The date and time in the columns of section 5.6. */
  function ReadStamp(text: string): Stamp
    requires |text| == 20
  {
    Stamp(Civil(YearAt(text), NumberAt(text, 5, 7), NumberAt(text, 8, 10)),
          NumberAt(text, 11, 13), NumberAt(text, 14, 16), NumberAt(text, 17, 19))
  }

  /** date-fullyear "-" date-month "-" date-mday "T" time-hour ":" time-minute ":" time-second "Z", without a fraction. */
  predicate HasColumns(text: string) {
    && |text| == 20
    && text[4] == '-' && text[7] == '-' && text[10] == 'T' && text[13] == ':' && text[16] == ':' && text[19] == 'Z'
    && forall k :: k in [0, 1, 2, 3, 5, 6, 8, 9, 11, 12, 14, 15, 17, 18] ==> IsDigit(text[k])
  }

  /** The grammar of section 5.6 with its ranges, leap seconds aside. */
  predicate IsDateTime(text: string) {
    && HasColumns(text)
    && 1 <= NumberAt(text, 5, 7) <= 12
    && 1 <= NumberAt(text, 8, 10) <= DaysInMonth(NumberAt(text, 0, 4), NumberAt(text, 5, 7))
    && 0 <= NumberAt(text, 11, 13) <= 23 && 0 <= NumberAt(text, 14, 16) <= 59 && 0 <= NumberAt(text, 17, 19) <= 59
  }

  // ---- Reading digits ----

  lemma {:induction false} SameDigits(a: string, i: nat, b: string, j: nat, n: nat)
    requires i + n <= |a| && j + n <= |b| && a[i..i + n] == b[j..j + n]
    ensures NumberAt(a, i, i + n) == NumberAt(b, j, j + n)
  {
    if n > 0 {
      assert a[i..i + n - 1] == a[i..i + n][..n - 1] && b[j..j + n - 1] == b[j..j + n][..n - 1];
      assert a[i + n - 1] == a[i..i + n][n - 1] && b[j + n - 1] == b[j..j + n][n - 1];
      SameDigits(a, i, b, j, n - 1);
    }
  }

  /** A padded number reads as itself. */
  lemma {:induction false} PadReadsBack(n: nat, w: nat)
    requires w > 0 && n < Pow10(w)
    ensures |Pad(n, w)| == w && NumberAt(Pad(n, w), 0, w) == n
  {
    var text := Pad(n, w);
    PaddedOrder(n, n, w);
    if w == 1 {
      assert Pow10(1) == 10;
      assert text == [Digit(n)];
      assert NumberAt(text, 0, 0) == 0;
    } else {
      PadReadsBack(n / 10, w - 1);
      assert text == Pad(n / 10, w - 1) + [Digit(n % 10)];
      SameDigits(text, 0, Pad(n / 10, w - 1), 0, w - 1);
    }
  }

  lemma Powers()
    ensures Pow10(2) == 100 && Pow10(3) == 1_000 && Pow10(4) == 10_000
  {
    assert Pow10(1) == 10;
  }

  // ---- The printed columns ----

  lemma ColumnsInPlace(y: string, mo: string, d: string, h: string, mi: string, s: string)
    requires |y| == 4 && |mo| == |d| == |h| == |mi| == |s| == 2
    ensures y + ("-" + (mo + ("-" + (d + ("T" + (h + (":" + (mi + (":" + (s + "Z")))))))))) ==
            [y[0], y[1], y[2], y[3], '-', mo[0], mo[1], '-', d[0], d[1], 'T', h[0], h[1], ':', mi[0], mi[1], ':', s[0], s[1], 'Z']
  {
    assert mo == [mo[0], mo[1]] && d == [d[0], d[1]] && h == [h[0], h[1]] && mi == [mi[0], mi[1]] && s == [s[0], s[1]];
    assert y == [y[0], y[1], y[2], y[3]];
  }

  lemma TwoLong(n: nat)
    requires n < 100
    ensures |Pad(n, 2)| == 2 && IsDigit(Pad(n, 2)[0]) && IsDigit(Pad(n, 2)[1])
  {
    Powers();
    PaddedOrder(n, n, 2);
    PadIsDigits(n, 2);
  }

  lemma YearReadsBack(year: int, rest: string)
    requires -999 <= year <= 9_999
    ensures |YearText(year)| == 4 && YearAt(YearText(year) + rest) == year
  {
    Powers();
    var text := YearText(year) + rest;
    if year < 0 {
      PadReadsBack(-year, 3);
      SameDigits(text, 1, Pad(-year, 3), 0, 3);
    } else {
      PadReadsBack(year, 4);
      PadIsDigits(year, 4);
      assert IsDigit(Pad(year, 4)[0]);
      SameDigits(text, 0, Pad(year, 4), 0, 4);
    }
  }

  /** Where the text of a stamp has what. */
  lemma StampColumns(t: Stamp)
    requires ValidStamp(t) && -999 <= t.date.year <= 9_999
    ensures var text := StampText(t);
            && |text| == 20 && YearAt(text) == t.date.year
            && text[..4] == YearText(t.date.year)
            && text[4] == '-' && text[7] == '-' && text[10] == 'T' && text[13] == ':' && text[16] == ':' && text[19] == 'Z'
            && text[5..7] == Pad(t.date.month, 2) && text[8..10] == Pad(t.date.day, 2)
            && text[11..13] == Pad(t.hour, 2) && text[14..16] == Pad(t.minute, 2) && text[17..19] == Pad(t.second, 2)
  {
    YearReadsBack(t.date.year, AfterYear(t));
    TwoLong(t.date.month);
    TwoLong(t.date.day);
    TwoLong(t.hour);
    TwoLong(t.minute);
    TwoLong(t.second);
    hide Pad, YearText, YearAt, IsDigit;
    ColumnsInPlace(YearText(t.date.year), Pad(t.date.month, 2), Pad(t.date.day, 2), Pad(t.hour, 2), Pad(t.minute, 2), Pad(t.second, 2));
  }

  lemma ColumnReadsBack(text: string, at: nat, n: nat)
    requires n < 100 && at + 2 <= |text| && text[at..at + 2] == Pad(n, 2)
    ensures NumberAt(text, at, at + 2) == n && IsDigit(text[at]) && IsDigit(text[at + 1])
  {
    Powers();
    PadReadsBack(n, 2);
    TwoLong(n);
    assert Pad(n, 2)[0..2] == Pad(n, 2);
    SameDigits(text, at, Pad(n, 2), 0, 2);
    assert text[at..at + 2][0] == text[at] && text[at..at + 2][1] == text[at + 1];
  }

  lemma StampReadsBack(t: Stamp)
    requires ValidStamp(t) && -999 <= t.date.year <= 9_999
    ensures |StampText(t)| == 20 && ReadStamp(StampText(t)) == t
  {
    StampColumns(t);
    var text := StampText(t);
    hide StampText, YearAt, NumberAt, Pad;
    ColumnReadsBack(text, 5, t.date.month);
    ColumnReadsBack(text, 8, t.date.day);
    ColumnReadsBack(text, 11, t.hour);
    ColumnReadsBack(text, 14, t.minute);
    ColumnReadsBack(text, 17, t.second);
  }

  /** Reading the columns of a printed instant gives back its date and time, digit by digit. */
  lemma TimestampReadsBack(secs: int)
    requires -999 <= StampFromSeconds(secs).date.year <= 9_999
    ensures |SecondsText(secs)| == 20 && ReadStamp(SecondsText(secs)) == StampFromSeconds(secs)
    ensures SecondsText(secs)[0] == '-' <==> StampFromSeconds(secs).date.year < 0
  {
    StampOfEverySecond(secs);
    var t := StampFromSeconds(secs);
    StampReadsBack(t);
    YearReadsBack(t.date.year, "");
    StampColumns(t);
    assert StampText(t)[..4][0] == StampText(t)[0];
    if t.date.year >= 0 {
      PadIsDigits(t.date.year, 4);
      assert IsDigit(Pad(t.date.year, 4)[0]);
    }
  }

  /** So the second that a printed timestamp stands for can be read off it. */
  lemma SecondReadsBack(secs: int)
    requires -999 <= StampFromSeconds(secs).date.year <= 9_999
    ensures |SecondsText(secs)| == 20 && ValidStamp(ReadStamp(SecondsText(secs)))
    ensures SecondsFromStamp(ReadStamp(SecondsText(secs))) == secs
  {
    TimestampReadsBack(secs);
    StampOfEverySecond(secs);
  }

  lemma LongOrSigned(secs: int)
    requires !PrintableYear(secs)
    ensures !HasColumns(SecondsText(secs))
  {
    StampOfEverySecond(secs);
    var t := StampFromSeconds(secs);
    var text := StampText(t);
    if t.date.year < 0 {
      assert text[0] == '-';
    } else {
      Powers();
      PadIsDigits(t.date.year, 4);
      assert text[4] == Pad(t.date.year, 4)[4];
    }
  }

  lemma PrintedHasColumns(t: Stamp)
    requires ValidStamp(t) && 0 <= t.date.year <= 9_999
    ensures HasColumns(StampText(t))
  {
    var text := StampText(t);
    StampColumns(t);
    PadIsDigits(t.date.year, 4);
    hide StampText, NumberAt, Pad, IsDigit;
    ColumnReadsBack(text, 5, t.date.month);
    ColumnReadsBack(text, 8, t.date.day);
    ColumnReadsBack(text, 11, t.hour);
    ColumnReadsBack(text, 14, t.minute);
    ColumnReadsBack(text, 17, t.second);
    assert text[0] == text[..4][0] && text[1] == text[..4][1] && text[2] == text[..4][2] && text[3] == text[..4][3];
  }

  lemma PrintedInRange(t: Stamp)
    requires ValidStamp(t) && 0 <= t.date.year <= 9_999 && HasColumns(StampText(t))
    ensures IsDateTime(StampText(t))
  {
    StampReadsBack(t);
    assert IsDigit(StampText(t)[0]);
    hide StampText, NumberAt, HasColumns;
  }

  /** The printer's output is a date-time of RFC 3339, ranges included, exactly for the years 0000 to 9999. */
  lemma GrammaticalExactlyForFourDigitYears(secs: int)
    ensures IsDateTime(SecondsText(secs)) <==> PrintableYear(secs)
  {
    if PrintableYear(secs) {
      StampOfEverySecond(secs);
      PrintedHasColumns(StampFromSeconds(secs));
      PrintedInRange(StampFromSeconds(secs));
    } else {
      LongOrSigned(secs);
    }
  }
}
