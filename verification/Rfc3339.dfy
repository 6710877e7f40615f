/** The printed form of a timestamp, and the text order that the database sorts it by. */
module Rfc3339 {
  import opened Calendar

  function Digit(n: int): char
    requires 0 <= n < 10
  {
    ('0' as int + n) as char
  }

  /** Zero-padded decimal with at least width digits. */
  function Pad(n: nat, width: nat): string
    decreases n, width
  {
    if n < 10 && width <= 1 then [Digit(n)]
    else Pad(n / 10, if width == 0 then 0 else width - 1) + [Digit(n % 10)]
  }

  /** A minus sign takes one of the four columns. */
  function YearText(year: int): string {
    if year < 0 then "-" + Pad(-year, 3) else Pad(year, 4)
  }

  /** The columns behind the year. */
  function AfterYear(t: Stamp): string
    requires ValidStamp(t)
  {
    "-" + (Pad(t.date.month, 2) + ("-" + (Pad(t.date.day, 2) + ("T" +
    (Pad(t.hour, 2) + (":" + (Pad(t.minute, 2) + (":" + (Pad(t.second, 2) + "Z")))))))))
  }

  function StampText(t: Stamp): string
    requires ValidStamp(t)
  {
    YearText(t.date.year) + AfterYear(t)
  }

  /** The timestamp of a whole second since the epoch. */
  function SecondsText(secs: int): string {
    StampOfEverySecond(secs);
    StampText(StampFromSeconds(secs))
  }

  const NANOS := 1_000_000_000

  /** Whole seconds of an instant in nanoseconds: both directions round toward the epoch. */
  function WholeSeconds(nanos: int): int {
    if nanos >= 0 then nanos / NANOS else -(-nanos / NANOS)
  }

  function SystemTimeToRfc3339(nanos: int): string {
    SecondsText(WholeSeconds(nanos))
  }

  /** Byte-wise text comparison. */
  predicate TextBefore(a: string, b: string) {
    if a == [] then b != []
    else if b == [] then false
    else a[0] < b[0] || (a[0] == b[0] && TextBefore(a[1..], b[1..]))
  }

  lemma {:induction false} TextOrderByField(x: string, y: string, u: string, v: string)
    requires |x| == |y|
    ensures TextBefore(x + u, y + v) <==> TextBefore(x, y) || (x == y && TextBefore(u, v))
  {
    if x == [] {
      assert x + u == u && y + v == v;
    } else {
      assert (x + u)[1..] == x[1..] + u && (y + v)[1..] == y[1..] + v;
      TextOrderByField(x[1..], y[1..], u, v);
      assert x == [x[0]] + x[1..] && y == [y[0]] + y[1..];
    }
  }

  function Pow10(w: nat): nat {
    if w == 0 then 1 else 10 * Pow10(w - 1)
  }

  /** Padded numbers of one width compare as text the way they compare as numbers. */
  lemma {:induction false} PaddedOrder(a: nat, b: nat, w: nat)
    requires w > 0 && a < Pow10(w) && b < Pow10(w)
    ensures |Pad(a, w)| == w && |Pad(b, w)| == w
    ensures Pad(a, w) == Pad(b, w) <==> a == b
    ensures TextBefore(Pad(a, w), Pad(b, w)) <==> a < b
    decreases w
  {
    var x, y := [Digit(a % 10)], [Digit(b % 10)];
    assert TextBefore(x, y) <==> a % 10 < b % 10;
    if w == 1 {
      assert Pow10(1) == 10;
    } else {
      PaddedOrder(a / 10, b / 10, w - 1);
      var p, q := Pad(a / 10, w - 1), Pad(b / 10, w - 1);
      TextOrderByField(p, q, x, y);
      assert Pad(a, w) == p + x && Pad(b, w) == q + y;
      assert p + x == q + y ==> (p + x)[..w - 1] == (q + y)[..w - 1] && (p + x)[w - 1] == (q + y)[w - 1];
      assert (p + x)[..w - 1] == p && (q + y)[..w - 1] == q;
    }
  }

  lemma TwoDigits(a: nat, b: nat, u: string, v: string)
    requires a < 100 && b < 100
    ensures TextBefore(Pad(a, 2) + u, Pad(b, 2) + v) <==> a < b || (a == b && TextBefore(u, v))
  {
    assert Pow10(2) == 100 by { assert Pow10(1) == 10; }
    PaddedOrder(a, b, 2);
    TextOrderByField(Pad(a, 2), Pad(b, 2), u, v);
  }

  lemma FourDigits(a: nat, b: nat, u: string, v: string)
    requires a < 10_000 && b < 10_000
    ensures TextBefore(Pad(a, 4) + u, Pad(b, 4) + v) <==> a < b || (a == b && TextBefore(u, v))
  {
    assert Pow10(4) == 10_000 by { assert Pow10(1) == 10; assert Pow10(2) == 100; assert Pow10(3) == 1_000; }
    PaddedOrder(a, b, 4);
    TextOrderByField(Pad(a, 4), Pad(b, 4), u, v);
  }

  lemma AfterYearOrder(a: Stamp, b: Stamp)
    requires ValidStamp(a) && ValidStamp(b) && a.date.year == b.date.year
    ensures TextBefore(AfterYear(a), AfterYear(b)) <==> StampBefore(a, b)
  {
    var s5, t5 := ":" + (Pad(a.second, 2) + "Z"), ":" + (Pad(b.second, 2) + "Z");
    var s4, t4 := ":" + (Pad(a.minute, 2) + s5), ":" + (Pad(b.minute, 2) + t5);
    var s3, t3 := "T" + (Pad(a.hour, 2) + s4), "T" + (Pad(b.hour, 2) + t4);
    var s2, t2 := "-" + (Pad(a.date.day, 2) + s3), "-" + (Pad(b.date.day, 2) + t3);
    TwoDigits(a.second, b.second, "Z", "Z");
    TextOrderByField(":", ":", Pad(a.second, 2) + "Z", Pad(b.second, 2) + "Z");
    TwoDigits(a.minute, b.minute, s5, t5);
    TextOrderByField(":", ":", Pad(a.minute, 2) + s5, Pad(b.minute, 2) + t5);
    TwoDigits(a.hour, b.hour, s4, t4);
    TextOrderByField("T", "T", Pad(a.hour, 2) + s4, Pad(b.hour, 2) + t4);
    TwoDigits(a.date.day, b.date.day, s3, t3);
    TextOrderByField("-", "-", Pad(a.date.day, 2) + s3, Pad(b.date.day, 2) + t3);
    TwoDigits(a.date.month, b.date.month, s2, t2);
    TextOrderByField("-", "-", Pad(a.date.month, 2) + s2, Pad(b.date.month, 2) + t2);
  }

  /** A minus sign sorts before every digit, and in year -1 alone the rest still decides. */
  lemma StampTextOrder(a: Stamp, b: Stamp)
    requires ValidStamp(a) && ValidStamp(b)
    requires -1 <= a.date.year <= 9_999 && -1 <= b.date.year <= 9_999
    ensures TextBefore(StampText(a), StampText(b)) <==> StampBefore(a, b)
  {
    hide AfterYear, Pad, TextBefore, ValidStamp;
    YearColumn(a.date.year);
    YearColumn(b.date.year);
    if a.date.year == b.date.year {
      TextOrderByField(YearText(a.date.year), YearText(b.date.year), AfterYear(a), AfterYear(b));
      AfterYearOrder(a, b);
      NotBeforeItself(YearText(a.date.year));
    } else if a.date.year >= 0 && b.date.year >= 0 {
      FourDigits(a.date.year, b.date.year, AfterYear(a), AfterYear(b));
    } else {
      FirstCharDecides(StampText(a), StampText(b));
    }
  }

  lemma YearColumn(year: int)
    requires -1 <= year <= 9_999
    ensures |YearText(year)| == 4 && (YearText(year)[0] == '-' <==> year < 0) && (year >= 0 ==> YearText(year)[0] >= '0')
  {
    if year < 0 {
      assert Pad(1, 3) == "001" by { assert Pad(0, 1) == "0" && Pad(0, 2) == "00"; }
    } else {
      assert Pow10(4) == 10_000 by { assert Pow10(1) == 10; assert Pow10(2) == 100; assert Pow10(3) == 1_000; }
      PaddedOrder(year, year, 4);
      PadIsDigits(year, 4);
      assert IsDigit(Pad(year, 4)[0]);
    }
  }

  lemma {:induction false} NotBeforeItself(a: string)
    ensures !TextBefore(a, a)
  {
    if a != [] {
      NotBeforeItself(a[1..]);
    }
  }

  lemma FirstCharDecides(a: string, b: string)
    requires a != [] && b != [] && a[0] != b[0]
    ensures TextBefore(a, b) <==> a[0] < b[0]
  {
  }

  predicate PrintableYear(secs: int) {
    0 <= StampFromSeconds(secs).date.year <= 9_999
  }

  predicate SortableYear(secs: int) {
    -1 <= StampFromSeconds(secs).date.year <= 9_999
  }

  /** Sorting the printed timestamps as text sorts the instants: no two are swapped or merged. */
  lemma TextOrderIsTimeOrder(s: int, t: int)
    requires SortableYear(s) && SortableYear(t)
    ensures TextBefore(SecondsText(s), SecondsText(t)) <==> s < t
  {
    StampOfEverySecond(s);
    StampOfEverySecond(t);
    StampTextOrder(StampFromSeconds(s), StampFromSeconds(t));
    StampOrderIsTimeOrder(s, t);
  }

  lemma WholeSecondsMonotone(m: int, n: int)
    requires m <= n
    ensures WholeSeconds(m) <= WholeSeconds(n)
    ensures n - m >= 2 * NANOS ==> WholeSeconds(m) < WholeSeconds(n)
  {
    RoundsTowardEpoch(m);
    RoundsTowardEpoch(n);
  }

  lemma RoundsTowardEpoch(n: int)
    ensures n >= 0 ==> WholeSeconds(n) >= 0 && WholeSeconds(n) * 1_000_000_000 <= n < (WholeSeconds(n) + 1) * 1_000_000_000
    ensures n < 0 ==> WholeSeconds(n) <= 0 && (WholeSeconds(n) - 1) * 1_000_000_000 < n <= WholeSeconds(n) * 1_000_000_000
  {
  }

  /** Instants inside a second may print alike, but never out of order. */
  lemma InstantsPrintInOrder(m: int, n: int)
    requires m <= n
    requires SortableYear(WholeSeconds(m)) && SortableYear(WholeSeconds(n))
    ensures !TextBefore(SystemTimeToRfc3339(n), SystemTimeToRfc3339(m))
    ensures n - m >= 2 * NANOS ==> TextBefore(SystemTimeToRfc3339(m), SystemTimeToRfc3339(n))
  {
    WholeSecondsMonotone(m, n);
    TextOrderIsTimeOrder(WholeSeconds(n), WholeSeconds(m));
    TextOrderIsTimeOrder(WholeSeconds(m), WholeSeconds(n));
  }

  ghost predicate TextAscending(rows: seq<string>) {
    forall i, j :: 0 <= i < j < |rows| ==> !TextBefore(rows[j], rows[i])
  }

  /** What ORDER BY on a timestamp column relies on. */
  lemma OrderByTimestamp(rows: seq<int>, texts: seq<string>)
    requires |rows| == |texts|
    requires forall i :: 0 <= i < |rows| ==> SortableYear(rows[i]) && texts[i] == SecondsText(rows[i])
    ensures TextAscending(texts) <==> forall i, j :: 0 <= i < j < |rows| ==> rows[i] <= rows[j]
  {
    forall i, j | 0 <= i < j < |rows|
      ensures TextBefore(texts[j], texts[i]) <==> rows[j] < rows[i]
    {
      TextOrderIsTimeOrder(rows[j], rows[i]);
    }
    if TextAscending(texts) {
      forall i, j | 0 <= i < j < |rows| ensures rows[i] <= rows[j] {
        assert !TextBefore(texts[j], texts[i]);
      }
    }
  }

  // ---- Digits ----

  predicate IsDigit(c: char) {
    '0' <= c <= '9'
  }

  lemma {:induction false} PadIsDigits(n: nat, width: nat)
    ensures |Pad(n, width)| >= width && |Pad(n, width)| >= 1
    ensures forall k :: 0 <= k < |Pad(n, width)| ==> IsDigit(Pad(n, width)[k])
    ensures n >= Pow10(width) && width > 0 ==> |Pad(n, width)| > width
    decreases n, width
  {
    if !(n < 10 && width <= 1) {
      PadIsDigits(n / 10, if width == 0 then 0 else width - 1);
    } else {
      assert width == 1 ==> Pow10(1) == 10;
    }
  }

  // ---- The ends of the window ----

  lemma StartOfYear10000()
    ensures StampFromSeconds(253_402_300_800) == Stamp(Civil(10_000, 1, 1), 0, 0, 0)
  {
    StampAt(253_402_300_800, Stamp(Civil(10_000, 1, 1), 0, 0, 0));
  }

  lemma EndOfYear9999()
    ensures StampFromSeconds(253_402_300_799) == Stamp(Civil(9_999, 12, 31), 23, 59, 59)
  {
    MonthStarts(9_999);
    StampAt(253_402_300_799, Stamp(Civil(9_999, 12, 31), 23, 59, 59));
  }

  lemma StartOfEpoch()
    ensures StampFromSeconds(0) == Stamp(Civil(1_970, 1, 1), 0, 0, 0)
  {
    EpochIsDayZero();
  }

  lemma DigitsOfTwoYears()
    ensures Pad(10_000, 4) == "10000" && Pad(1_970, 4) == "1970"
  {
    assert Pad(1, 1) == "1" && Pad(10, 1) == "10" && Pad(100, 2) == "100" && Pad(1_000, 3) == "1000";
    assert Pad(19, 2) == "19" && Pad(197, 3) == "197";
  }

  /** One second after 9999-12-31T23:59:59Z the text order breaks: year 10000 sorts before 1970. */
  lemma TextOrderBreaksInYear10000()
    ensures PrintableYear(253_402_300_799) && !PrintableYear(253_402_300_800)
    ensures TextBefore(SecondsText(253_402_300_800), SecondsText(0))
  {
    StartOfYear10000();
    EndOfYear9999();
    StartOfEpoch();
    DigitsOfTwoYears();
    var a, b := SecondsText(253_402_300_800), SecondsText(0);
    assert a[0] == '1' && b[0] == '1' && a[1] == '0' && b[1] == '9';
    assert TextBefore(a[1..], b[1..]);
  }

  // ---- The exact window ----

  lemma YearsAscend(s: int, t: int)
    requires s <= t
    ensures StampFromSeconds(s).date.year <= StampFromSeconds(t).date.year
  {
    StampOrderIsTimeOrder(s, t);
    StampOrderIsTimeOrder(t, s);
    StampOfEverySecond(s);
    StampOfEverySecond(t);
  }

  const END_OF_YEAR_MINUS_2 := -62_198_755_201

  lemma TurnOfYearMinus1()
    ensures StampFromSeconds(END_OF_YEAR_MINUS_2) == Stamp(Civil(-2, 12, 31), 23, 59, 59)
    ensures StampFromSeconds(END_OF_YEAR_MINUS_2 + 1) == Stamp(Civil(-1, 1, 1), 0, 0, 0)
  {
    MonthStarts(-2);
    StampAt(END_OF_YEAR_MINUS_2, Stamp(Civil(-2, 12, 31), 23, 59, 59));
    StampAt(END_OF_YEAR_MINUS_2 + 1, Stamp(Civil(-1, 1, 1), 0, 0, 0));
  }

  /** The last second of year -2 sorts behind the first of year -1. */
  lemma TextOrderBreaksBeforeYearMinus1()
    ensures TextBefore(SecondsText(END_OF_YEAR_MINUS_2 + 1), SecondsText(END_OF_YEAR_MINUS_2))
  {
    TurnOfYearMinus1();
    var a, b := SecondsText(END_OF_YEAR_MINUS_2 + 1), SecondsText(END_OF_YEAR_MINUS_2);
    assert Pad(1, 3) == "001" && Pad(2, 3) == "002" by { assert Pad(0, 1) == "0" && Pad(0, 2) == "00"; }
    assert a[..4] == "-001" && b[..4] == "-002";
    TextOrderByField("-001", "-002", a[4..], b[4..]);
    assert a == "-001" + a[4..] && b == "-002" + b[4..];
    TextOrderByField("-00", "-00", "1", "2");
    assert "-001" == "-00" + "1" && "-002" == "-00" + "2";
    FirstCharDecides("1", "2");
  }

  ghost predicate SortsInTimeOrder(lo: int, hi: int) {
    forall s, t :: lo <= s <= hi && lo <= t <= hi ==> (TextBefore(SecondsText(s), SecondsText(t)) <==> s < t)
  }

  /** Around the epoch, text order is time order exactly as long as no instant is before year -1 or after 9999. */
  lemma TextOrderWindow(lo: int, hi: int)
    requires lo <= 0 <= hi
    ensures SortsInTimeOrder(lo, hi) <==>
            StampFromSeconds(lo).date.year >= -1 && StampFromSeconds(hi).date.year <= 9_999
  {
    hide SecondsText, TextBefore, StampFromSeconds;
    if StampFromSeconds(lo).date.year < -1 {
      TurnOfYearMinus1();
      TextOrderBreaksBeforeYearMinus1();
      if lo > END_OF_YEAR_MINUS_2 {
        YearsAscend(END_OF_YEAR_MINUS_2 + 1, lo);
      }
      assert SortsInTimeOrder(lo, hi) ==> lo > END_OF_YEAR_MINUS_2;
    } else if StampFromSeconds(hi).date.year > 9_999 {
      EndOfYear9999();
      TextOrderBreaksInYear10000();
      if hi < 253_402_300_800 {
        YearsAscend(hi, 253_402_300_799);
      }
      assert SortsInTimeOrder(lo, hi) ==> hi < 253_402_300_800;
    } else {
      forall s, t | lo <= s <= hi && lo <= t <= hi
        ensures TextBefore(SecondsText(s), SecondsText(t)) <==> s < t
      {
        YearsAscend(lo, s);
        YearsAscend(s, hi);
        YearsAscend(lo, t);
        YearsAscend(t, hi);
        TextOrderIsTimeOrder(s, t);
      }
    }
  }
}
