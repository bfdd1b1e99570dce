/** Whole-second stamps, their RFC 3339 text in UTC, and the byte order of that text. */
module Timestamps {
  import opened Text
  import Decimal

  datatype Option<T> = None | Some(value: T)

  const SECOND: int := 1_000_000_000

  /** Formatting an instant drops the fraction of a second; the result counts seconds from the Unix epoch. */
  function Stamp(now: int): int {
    now / SECOND
  }

  // ---------- civil time ----------

  datatype Civil = Civil(year: int, month: int, day: int, hour: int, minute: int, second: int) {
    predicate Valid() {
      && 1 <= month <= 12 && 1 <= day <= DaysIn(year, month)
      && 0 <= hour < 24 && 0 <= minute < 60 && 0 <= second < 60
    }
  }

  predicate Leap(year: int) {
    year % 4 == 0 && (year % 100 != 0 || year % 400 == 0)
  }

  function DaysIn(year: int, month: int): (n: int)
    ensures 28 <= n <= 31
  {
    if month == 2 then if Leap(year) then 29 else 28
    else if month in {4, 6, 9, 11} then 30
    else 31
  }

  /** Days from the first of January of year 0 to that of `year`. */
  function DaysBeforeYear(year: int): int {
    365 * year + (year + 3) / 4 - (year + 99) / 100 + (year + 399) / 400
  }

  function DaysBeforeMonth(year: int, month: int): (n: int)
    requires 1 <= month <= 13
    ensures n >= 0
  {
    if month == 1 then 0 else DaysBeforeMonth(year, month - 1) + DaysIn(year, month - 1)
  }

  function DayNumber(c: Civil): int
    requires c.Valid()
  {
    DaysBeforeYear(c.year) + DaysBeforeMonth(c.year, c.month) + c.day - 1
  }

  const EPOCH_DAY: int := 719528

  /** Seconds from the Unix epoch. */
  function Instant(c: Civil): int
    requires c.Valid()
  {
    (((DayNumber(c) - EPOCH_DAY) * 24 + c.hour) * 60 + c.minute) * 60 + c.second
  }

  lemma EpochIsZero()
    ensures Instant(Civil(1970, 1, 1, 0, 0, 0)) == 0
  {
    NewYear(1970, EPOCH_DAY);
  }

  lemma YearLength(year: int)
    ensures DaysBeforeYear(year + 1) == DaysBeforeYear(year) + DaysBeforeMonth(year, 13)
  {
    hide DaysBeforeYear;
    LeapDays(year);
    DaysInYear(year);
  }

  lemma DaysInYear(year: int)
    ensures DaysBeforeMonth(year, 13) == if Leap(year) then 366 else 365
  {
    hide Leap;
    hide DaysBeforeMonth;
    MonthLength(year, 12);
    MonthLength(year, 11);
    MonthLength(year, 10);
    MonthLength(year, 9);
    MonthLength(year, 8);
    MonthLength(year, 7);
    MonthLength(year, 6);
    MonthLength(year, 5);
    MonthLength(year, 4);
    MonthLength(year, 3);
    MonthLength(year, 2);
    MonthLength(year, 1);
    FirstMonth(year);
  }

  /** The day of the year each month begins on: from March on 153 days every five months. */
  lemma {:induction false} MonthStarts(year: int, month: int)
    requires 1 <= month <= 12
    ensures DaysBeforeMonth(year, month) ==
            if month == 1 then 0 else if month == 2 then 31
            else (if Leap(year) then 60 else 59) + (153 * (month - 3) + 2) / 5
  {
    hide Leap;
    if month > 1 {
      MonthStarts(year, month - 1);
      MonthLength(year, month - 1);
    }
  }

  lemma FirstMonth(year: int)
    ensures DaysBeforeMonth(year, 1) == 0
  {
  }

  lemma MonthLength(year: int, month: int)
    requires 1 <= month <= 12
    ensures DaysBeforeMonth(year, month + 1) == DaysBeforeMonth(year, month) + DaysIn(year, month)
  {
  }

  lemma LeapDays(year: int)
    ensures DaysBeforeYear(year + 1) == DaysBeforeYear(year) + if Leap(year) then 366 else 365
  {
    assert (year + 4) / 4 - (year + 3) / 4 == if year % 4 == 0 then 1 else 0;
    assert (year + 100) / 100 - (year + 99) / 100 == if year % 100 == 0 then 1 else 0;
    assert (year + 400) / 400 - (year + 399) / 400 == if year % 400 == 0 then 1 else 0;
  }

  lemma {:induction false} YearsAscend(a: int, b: int)
    requires a <= b
    ensures DaysBeforeYear(a) <= DaysBeforeYear(b)
    decreases b - a
  {
    hide DaysBeforeYear;
    if a < b {
      YearLength(a);
      YearsAscend(a + 1, b);
    }
  }

  lemma {:induction false} MonthsAscend(year: int, a: int, b: int)
    requires 1 <= a <= b <= 13
    ensures DaysBeforeMonth(year, a) <= DaysBeforeMonth(year, b)
    decreases b - a
  {
    if a < b {
      MonthsAscend(year, a, b - 1);
    }
  }

  // ---------- from an instant to its fields ----------

  function YearFrom(n: int, year: int): (r: int)
    requires DaysBeforeYear(year) <= n
    ensures DaysBeforeYear(r) <= n < DaysBeforeYear(r + 1)
    decreases n - DaysBeforeYear(year)
  {
    YearLength(year);
    assert DaysBeforeMonth(year, 13) >= DaysIn(year, 12);
    if n < DaysBeforeYear(year + 1) then year else YearFrom(n, year + 1)
  }

  function MonthFrom(n: int, year: int, month: int): (r: int)
    requires 1 <= month <= 12 && DaysBeforeMonth(year, month) <= n < DaysBeforeMonth(year, 13)
    ensures 1 <= r <= 12 && DaysBeforeMonth(year, r) <= n < DaysBeforeMonth(year, r + 1)
    decreases 12 - month
  {
    if n < DaysBeforeMonth(year, month + 1) then month else MonthFrom(n, year, month + 1)
  }

  lemma CenturyStart(n: int)
    ensures DaysBeforeYear(n / 146097 * 400) <= n
  {
    var era := n / 146097;
    assert (era * 400 + 3) / 4 == era * 100;
    assert (era * 400 + 99) / 100 == era * 4;
    assert (era * 400 + 399) / 400 == era;
  }

  /** The date of a day number, at midnight. */
  function DateOf(n: int): (c: Civil)
    ensures c.Valid() && DayNumber(c) == n && c.hour == 0 && c.minute == 0 && c.second == 0
  {
    hide DaysBeforeYear;
    hide DaysBeforeMonth;
    hide DaysIn;
    CenturyStart(n);
    var year := YearFrom(n, n / 146097 * 400);
    YearLength(year);
    var ofYear := n - DaysBeforeYear(year);
    FirstMonth(year);
    var month := MonthFrom(ofYear, year, 1);
    MonthLength(year, month);
    Civil(year, month, ofYear - DaysBeforeMonth(year, month) + 1, 0, 0, 0)
  }

  /** The time of day of a second of the day, on a date. */
  function AtSecond(date: Civil, s: int): (c: Civil)
    requires date.Valid() && 0 <= s < 86400
    ensures c.Valid() && (c.year, c.month, c.day) == (date.year, date.month, date.day)
    ensures (c.hour * 60 + c.minute) * 60 + c.second == s
  {
    hide DaysIn;
    var minutes := s / 60;
    date.(hour := minutes / 60, minute := minutes % 60, second := s % 60)
  }

  /** The date and time of day of an instant, as `time.Time` shows it in UTC. */
  function CivilOf(t: int): (c: Civil)
    ensures c.Valid() && Instant(c) == t
  {
    hide DateOf;
    hide AtSecond;
    hide DaysIn;
    hide DayNumber;
    var date := DateOf(t / 86400 + EPOCH_DAY);
    var c := AtSecond(date, t % 86400);
    SameDay(date, c);
    c
  }

  lemma SameDay(a: Civil, b: Civil)
    requires a.Valid() && b.Valid() && a.year == b.year && a.month == b.month && a.day == b.day
    ensures DayNumber(a) == DayNumber(b)
  {
  }

  // ---------- the order of fields is the order of instants ----------

  predicate DateBefore(a: Civil, b: Civil) {
    a.year < b.year || (a.year == b.year && (a.month < b.month || (a.month == b.month && a.day < b.day)))
  }

  predicate FieldsBefore(a: Civil, b: Civil) {
    DateBefore(a, b) || (a.year == b.year && a.month == b.month && a.day == b.day && ClockBefore(a, b))
  }

  lemma DateOrder(a: Civil, b: Civil)
    requires a.Valid() && b.Valid() && DateBefore(a, b)
    ensures DayNumber(a) < DayNumber(b)
  {
    hide DaysBeforeYear;
    hide DaysBeforeMonth;
    MonthLength(a.year, a.month);
    if a.year < b.year {
      MonthsAscend(a.year, a.month + 1, 13);
      YearLength(a.year);
      YearsAscend(a.year + 1, b.year);
    } else if a.month < b.month {
      MonthsAscend(a.year, a.month + 1, b.month);
    }
  }

  predicate ClockBefore(a: Civil, b: Civil) {
    a.hour < b.hour || (a.hour == b.hour && (a.minute < b.minute || (a.minute == b.minute && a.second < b.second)))
  }

  function SecondOfDay(c: Civil): int {
    (c.hour * 60 + c.minute) * 60 + c.second
  }

  lemma ClockBounds(c: Civil)
    requires c.Valid()
    ensures 0 <= SecondOfDay(c) < 86400 && Instant(c) == (DayNumber(c) - EPOCH_DAY) * 86400 + SecondOfDay(c)
  {
    hide DayNumber;
  }

  lemma ClockSeconds(a: Civil, b: Civil)
    requires a.Valid() && b.Valid()
    ensures ClockBefore(a, b) <==> SecondOfDay(a) < SecondOfDay(b)
  {
  }

  lemma InstantOrder(a: Civil, b: Civil)
    requires a.Valid() && b.Valid()
    ensures FieldsBefore(a, b) <==> Instant(a) < Instant(b)
  {
    hide DayNumber;
    hide Instant;
    hide SecondOfDay;
    hide ClockBefore;
    ClockBounds(a);
    ClockBounds(b);
    ClockSeconds(a, b);
    if DateBefore(a, b) {
      DateOrder(a, b);
    } else if DateBefore(b, a) {
      DateOrder(b, a);
    } else {
      SameDay(a, b);
    }
  }

  // ---------- text ----------

  /** At least `width` digits, padded with zeros. */
  function Pad(n: nat, width: nat): (s: string)
    ensures |s| == width
  {
    if width == 0 then "" else Pad(n / 10, width - 1) + [Decimal.Digit(n % 10)]
  }

  function YearText(year: int): string {
    if year < 0 then "-" + YearDigits(-year) else YearDigits(year)
  }

  function YearDigits(year: nat): string {
    if year < 10000 then Pad(year, 4) else Decimal.Print(year)
  }

  function ClockText(c: Civil): string
    requires c.Valid()
  {
    "T" + (Pad(c.hour, 2) + (":" + (Pad(c.minute, 2) + (":" + (Pad(c.second, 2) + "Z")))))
  }

  /** `Format(time.RFC3339)` in UTC. */
  function Format(t: int): string {
    var c := CivilOf(t);
    YearText(c.year) + ("-" + (Pad(c.month, 2) + ("-" + (Pad(c.day, 2) + ClockText(c)))))
  }

  function Power(width: nat): (n: nat) {
    if width == 0 then 1 else 10 * Power(width - 1)
  }

  lemma {:induction false} PadReads(n: nat, width: nat)
    requires n < Power(width)
    ensures Decimal.Digits(Pad(n, width)) && Decimal.Value(Pad(n, width)) == n
  {
    if width > 0 {
      PadReads(n / 10, width - 1);
      var p, d := Pad(n / 10, width - 1), Decimal.Digit(n % 10);
      assert (p + [d])[..width - 1] == p && (p + [d])[width - 1] == d;
    }
  }

  /** The digits at this place of the text read as `n`. */
  predicate Reads(text: string, from: nat, to: nat, n: int) {
    from <= to <= |text| && Decimal.Digits(text[from..to]) && Decimal.Value(text[from..to]) == n
  }

  /** In years 0 to 9999 the text is `YYYY-MM-DDThh:mm:ssZ`, with the fields that denote the instant. */
  lemma FormatReads(t: int)
    requires 0 <= CivilOf(t).year < 10000
    ensures var c, text := CivilOf(t), Format(t);
            && c.Valid() && Instant(c) == t && |text| == 20
            && Reads(text, 0, 4, c.year) && Reads(text, 5, 7, c.month) && Reads(text, 8, 10, c.day)
            && Reads(text, 11, 13, c.hour) && Reads(text, 14, 16, c.minute) && Reads(text, 17, 19, c.second)
            && text[4] == '-' && text[7] == '-' && text[10] == 'T' && text[13] == ':' && text[16] == ':' && text[19] == 'Z'
  {
    hide CivilOf;
    hide Pad;
    hide Instant;
    hide Decimal.Value;
    var c := CivilOf(t);
    assert Power(2) == 100 && Power(4) == 10000;
    hide Power;
    PadReads(c.year, 4);
    PadReads(c.month, 2);
    PadReads(c.day, 2);
    PadReads(c.hour, 2);
    PadReads(c.minute, 2);
    PadReads(c.second, 2);
    ClockLayout(Pad(c.hour, 2), Pad(c.minute, 2), Pad(c.second, 2));
    DateLayout(Pad(c.year, 4), Pad(c.month, 2), Pad(c.day, 2), ClockText(c));
    hide ClockText;
    var text, clock := Format(t), ClockText(c);
    assert text[11..13] == clock[1..3] && text[14..16] == clock[4..6] && text[17..19] == clock[7..9];
    assert text[10] == clock[0] && text[13] == clock[3] && text[16] == clock[6] && text[19] == clock[9];
  }

  lemma ClockLayout(h: string, m: string, s: string)
    requires |h| == |m| == |s| == 2
    ensures var text := "T" + (h + (":" + (m + (":" + (s + "Z")))));
            && |text| == 10 && text[1..3] == h && text[4..6] == m && text[7..9] == s
            && text[0] == 'T' && text[3] == ':' && text[6] == ':' && text[9] == 'Z'
  {
    assert "T" + (h + (":" + (m + (":" + (s + "Z"))))) == "T" + h + ":" + m + ":" + s + "Z";
  }

  lemma DateLayout(y: string, m: string, d: string, clock: string)
    requires |y| == 4 && |m| == |d| == 2
    ensures var text := y + ("-" + (m + ("-" + (d + clock))));
            text[0..4] == y && text[5..7] == m && text[8..10] == d && text[4] == '-' && text[7] == '-' && text[10..] == clock
  {
    assert y + ("-" + (m + ("-" + (d + clock)))) == y + "-" + m + "-" + d + clock;
  }

  lemma {:induction false} PadOrder(m: nat, n: nat, width: nat)
    requires m < Power(width) && n < Power(width)
    ensures Before(Pad(m, width), Pad(n, width)) <==> m < n
    ensures Pad(m, width) == Pad(n, width) <==> m == n
  {
    if width > 0 {
      PadOrder(m / 10, n / 10, width - 1);
      var p, q := Pad(m / 10, width - 1), Pad(n / 10, width - 1);
      var a, b := [Decimal.Digit(m % 10)], [Decimal.Digit(n % 10)];
      BeforeConcat(p, q, a, b);
      assert Before(a, b) <==> m % 10 < n % 10;
      assert (p + a)[..width - 1] == p && (q + b)[..width - 1] == q;
      assert (p + a)[width - 1] == a[0] && (q + b)[width - 1] == b[0];
    }
  }

  lemma FieldOrder(m: nat, n: nat, width: nat, a: string, b: string)
    requires m < Power(width) && n < Power(width)
    ensures Before(Pad(m, width) + a, Pad(n, width) + b) <==> m < n || (m == n && Before(a, b))
  {
    hide Pad;
    hide Before;
    PadOrder(m, n, width);
    BeforeConcat(Pad(m, width), Pad(n, width), a, b);
  }

  lemma SepOrder(sep: char, a: string, b: string)
    ensures Before([sep] + a, [sep] + b) <==> Before(a, b)
  {
    BeforeConcat([sep], [sep], a, b);
  }

  lemma ClockOrder(a: Civil, b: Civil)
    requires a.Valid() && b.Valid()
    ensures Before(ClockText(a), ClockText(b)) <==> ClockBefore(a, b)
  {
    hide Before;
    hide Pad;
    assert Power(2) == 100;
    var sa, sb := Pad(a.second, 2) + "Z", Pad(b.second, 2) + "Z";
    assert !Before("Z", "Z") by { NotBeforeItself("Z"); }
    FieldOrder(a.second, b.second, 2, "Z", "Z");
    SepOrder(':', sa, sb);
    FieldOrder(a.minute, b.minute, 2, ":" + sa, ":" + sb);
    var ma, mb := Pad(a.minute, 2) + (":" + sa), Pad(b.minute, 2) + (":" + sb);
    SepOrder(':', ma, mb);
    FieldOrder(a.hour, b.hour, 2, ":" + ma, ":" + mb);
    SepOrder('T', Pad(a.hour, 2) + (":" + ma), Pad(b.hour, 2) + (":" + mb));
  }

  /** The first and last second whose text has the four-digit year of RFC 3339. */
  const FIRST: int := -62167219200
  const LAST: int := 253402300799

  predicate InRange(t: int) {
    FIRST <= t <= LAST
  }

  lemma YearInRange(t: int)
    ensures InRange(t) <==> 0 <= CivilOf(t).year <= 9999
    ensures t == LAST + 1 ==> CivilOf(t).year == 10000
  {
    hide CivilOf;
    hide Instant;
    var first, next, after := Civil(0, 1, 1, 0, 0, 0), Civil(10000, 1, 1, 0, 0, 0), Civil(10001, 1, 1, 0, 0, 0);
    Boundaries();
    InstantOrder(CivilOf(t), first);
    InstantOrder(CivilOf(t), next);
    InstantOrder(CivilOf(t), after);
  }

  lemma Boundaries()
    ensures Instant(Civil(0, 1, 1, 0, 0, 0)) == FIRST && Instant(Civil(10000, 1, 1, 0, 0, 0)) == LAST + 1
    ensures Instant(Civil(10001, 1, 1, 0, 0, 0)) > LAST + 1
  {
    hide Instant;
    hide DaysBeforeYear;
    NewYear(0, 0);
    NewYear(10000, 3652425);
    NewYear(10001, 3652791);
  }

  /** The first of January of a year, given the days before it. */
  lemma NewYear(year: int, days: int)
    requires days == 365 * year + (year + 3) / 4 - (year + 99) / 100 + (year + 399) / 400
    ensures Instant(Civil(year, 1, 1, 0, 0, 0)) == (days - EPOCH_DAY) * 86400
  {
    FirstMonth(year);
    hide DaysBeforeMonth;
  }

  /** Within years 0 to 9999, comparing the texts compares the instants. */
  lemma TextOrder(s: int, t: int)
    requires InRange(s) && InRange(t)
    ensures Before(Format(s), Format(t)) <==> s < t
    ensures Format(s) == Format(t) <==> s == t
  {
    DateTextOrder(s, t);
    DateTextOrder(t, s);
    NotBeforeItself(Format(s));
  }

  lemma DateTextOrder(s: int, t: int)
    requires InRange(s) && InRange(t)
    ensures Before(Format(s), Format(t)) <==> s < t
  {
    hide Before;
    hide Pad;
    hide CivilOf;
    hide ClockText;
    YearInRange(s);
    YearInRange(t);
    var a, b := CivilOf(s), CivilOf(t);
    InstantOrder(a, b);
    ClockOrder(a, b);
    assert Power(2) == 100 && Power(4) == 10000;
    FieldOrder(a.day, b.day, 2, ClockText(a), ClockText(b));
    var da, db := Pad(a.day, 2) + ClockText(a), Pad(b.day, 2) + ClockText(b);
    SepOrder('-', da, db);
    FieldOrder(a.month, b.month, 2, "-" + da, "-" + db);
    var ma, mb := Pad(a.month, 2) + ("-" + da), Pad(b.month, 2) + ("-" + db);
    SepOrder('-', ma, mb);
    FieldOrder(a.year, b.year, 4, "-" + ma, "-" + mb);
  }

  ghost predicate OrderedUpTo(last: int) {
    forall s, t | FIRST <= s <= last && FIRST <= t <= last :: Before(Format(s), Format(t)) <==> s < t
  }

  /** From year 0 on, text order is time order exactly up to the end of year 9999. */
  lemma OrderedIffFourDigits(last: int)
    ensures OrderedUpTo(last) <==> last <= LAST
  {
    if last <= LAST {
      forall s, t | FIRST <= s <= last && FIRST <= t <= last ensures Before(Format(s), Format(t)) <==> s < t {
        TextOrder(s, t);
      }
    } else {
      FiveDigitsSortFirst();
    }
  }

  lemma LastYear()
    ensures CivilOf(LAST).year == 9999 && Pad(9999, 4) == "9999"
  {
    hide CivilOf;
    hide Instant;
    YearInRange(LAST);
    assert Instant(Civil(9999, 1, 1, 0, 0, 0)) <= LAST by { NinesStart(); }
    InstantOrder(CivilOf(LAST), Civil(9999, 1, 1, 0, 0, 0));
    assert Pad(9, 1) == "9" && Pad(99, 2) == "99" && Pad(999, 3) == "999";
  }

  lemma NinesStart()
    ensures Instant(Civil(9999, 1, 1, 0, 0, 0)) <= LAST
  {
    NewYear(9999, 3652060);
    hide Instant;
  }

  lemma TenThousand()
    ensures Decimal.Print(10000) == "10000"
  {
    assert Decimal.Print(10) == "10" && Decimal.Print(100) == "100" && Decimal.Print(1000) == "1000";
  }

  lemma FiveDigitsSortFirst()
    ensures Before(Format(LAST + 1), Format(LAST))
  {
    hide CivilOf;
    YearInRange(LAST + 1);
    YearInRange(LAST);
    LastYear();
    TenThousand();
    hide Pad;
    hide Decimal.Print;
    hide ClockText;
  }

  // ---------- time filters ----------

  /** `created_at >= ?` and `created_at <= ?` on a row stamped `row`; an absent bound filters nothing. The zero time, the first
      instant of year 1, stands for an absent bound, so as a bound it is `None`. */
  predicate Selected(row: int, from: Option<int>, to: Option<int>) {
    && (from.Some? ==> !Before(Format(row), Format(Stamp(from.value))))
    && (to.Some? ==> !Before(Format(Stamp(to.value)), Format(row)))
  }

  predicate Within(row: int, from: Option<int>, to: Option<int>) {
    && (from.Some? ==> from.value <= row * SECOND)
    && (to.Some? ==> row * SECOND <= to.value)
  }

  predicate ExactBounds(from: Option<int>, to: Option<int>) {
    from.Some? ==> from.value % SECOND == 0 || (to.Some? && Stamp(to.value) < Stamp(from.value))
  }

  lemma SelectedStamps(row: int, from: Option<int>, to: Option<int>)
    requires InRange(row) && (from.Some? ==> InRange(Stamp(from.value))) && (to.Some? ==> InRange(Stamp(to.value)))
    ensures Selected(row, from, to) <==> (from.Some? ==> Stamp(from.value) <= row) && (to.Some? ==> row <= Stamp(to.value))
  {
    hide Format;
    hide Stamp;
    if from.Some? {
      TextOrder(row, Stamp(from.value));
    }
    if to.Some? {
      TextOrder(Stamp(to.value), row);
    }
  }

  /** The filters select the interval between the bounds, for every row, exactly when the lower bound is a whole second or
      the upper one is in an earlier second: the dropped fraction lets in a row stamped just before the lower bound. */
  lemma FilterIsIntervalIff(from: Option<int>, to: Option<int>)
    requires (from.Some? ==> InRange(Stamp(from.value))) && (to.Some? ==> InRange(Stamp(to.value)))
    ensures (forall row | InRange(row) :: Selected(row, from, to) <==> Within(row, from, to)) <==> ExactBounds(from, to)
  {
    hide Selected;
    forall row | InRange(row)
      ensures ExactBounds(from, to) ==> (Selected(row, from, to) <==> Within(row, from, to))
    {
      SelectedStamps(row, from, to);
    }
    if !ExactBounds(from, to) {
      var row := Stamp(from.value);
      SelectedStamps(row, from, to);
      assert Selected(row, from, to) && !Within(row, from, to);
    }
  }

  /** A lower bound half a second after the epoch lets in the row stamped at it. */
  lemma FractionLetsEarlierRowIn()
    ensures Selected(0, Some(500_000_000), None) && !Within(0, Some(500_000_000), None)
  {
    hide Format;
    hide Selected;
    SelectedStamps(0, Some(500_000_000), None);
  }
}
