/** The cache timestamp: days to civil date by closed formula, and its RFC 3339 text. */
module Calendar {
  import opened Text

  datatype Date = Date(year: int, month: int, day: int)

  /** Division that truncates toward zero. */
  function TruncDiv(a: int, b: int): int
    requires b > 0
  {
    if a >= 0 then a / b else -((-a) / b)
  }

  function CivilFromDays(days: int): Date {
    var z := days + 719468;
    DateOfEraDay(EraOf(z), z - EraOf(z) * 146097)
  }

  function EraOf(z: int): int {
    TruncDiv(if z >= 0 then z else z - 146096, 146097)
  }

  /** The date of day `doe` of an era of 400 years. */
  function DateOfEraDay(era: int, doe: int): Date {
    var yoe := YearOfEra(doe);
    var doy := doe - (365 * yoe + TruncDiv(yoe, 4) - TruncDiv(yoe, 100));
    DateOfYearDay(era, yoe, doy)
  }

  /** The date of day `doy` of a year that starts in March. */
  function DateOfYearDay(era: int, yoe: int, doy: int): Date {
    var mp := TruncDiv(5 * doy + 2, 153);
    var day := doy - TruncDiv(153 * mp + 2, 5) + 1;
    var month := mp + if mp < 10 then 3 else -9;
    Date(yoe + era * 400 + (if month <= 2 then 1 else 0), month, day)
  }

  function YearOfEra(doe: int): int {
    TruncDiv(doe - TruncDiv(doe, 1460) + TruncDiv(doe, 36524) - TruncDiv(doe, 146096), 365)
  }

  /* ---------- the Gregorian calendar ---------- */

  predicate Leap(y: int) {
    y % 4 == 0 && (y % 100 != 0 || y % 400 == 0)
  }

  function MonthLength(y: int, m: int): int {
    if m == 2 then (if Leap(y) then 29 else 28)
    else if m == 4 || m == 6 || m == 9 || m == 11 then 30
    else 31
  }

  predicate Valid(d: Date) {
    1 <= d.month <= 12 && 1 <= d.day <= MonthLength(d.year, d.month)
  }

  /** The next day of the calendar. */
  function Successor(d: Date): Date {
    if d.day < MonthLength(d.year, d.month) then d.(day := d.day + 1)
    else if d.month < 12 then Date(d.year, d.month + 1, 1)
    else Date(d.year + 1, 1, 1)
  }

  /* ---------- March-based years within an era of 400 ---------- */

  /** Days before year `y` of an era. */
  function YearStart(y: int): int {
    365 * y + y / 4 - y / 100 + y / 400
  }

  /** A day of an era as centuries, four-year groups, years and days. */
  lemma SplitDay(doe: int) returns (c: int, q: int, t: int, u: int)
    requires 0 <= doe < 146097
    ensures 0 <= c <= 3 && 0 <= q <= 24 && 0 <= t <= 3 && 0 <= u <= 365
    ensures doe == 36524 * c + 1461 * q + 365 * t + u
    ensures u == 365 ==> t == 3 && (q == 24 ==> c == 3)
    ensures doe == 146096 <==> c == 3 && q == 24 && t == 3 && u == 365
  {
    c := if doe == 146096 then 3 else doe / 36524;
    var r := doe - 36524 * c;
    q := r / 1461;
    var s := r - 1461 * q;
    t := if s == 1460 then 3 else s / 365;
    u := s - 365 * t;
  }

  lemma YearStartSplit(c: int, q: int, t: int)
    requires 0 <= c <= 3 && 0 <= q <= 24 && 0 <= t <= 3
    ensures var y := 100 * c + 4 * q + t;
            && 0 <= y < 400
            && YearStart(y) == 36524 * c + 1461 * q + 365 * t
            && YearStart(y + 1) == YearStart(y) + 365 + (if t == 3 && (q < 24 || c == 3) then 1 else 0)
  {
    var y := 100 * c + 4 * q + t;
    assert y / 4 == 25 * c + q && y / 100 == c && y / 400 == 0;
    if t == 3 {
      assert (y + 1) / 4 == 25 * c + q + 1;
      if q == 24 {
        assert y + 1 == 100 * (c + 1);
      } else {
        assert (y + 1) / 100 == c;
      }
    } else {
      assert (y + 1) / 4 == 25 * c + q && (y + 1) / 100 == c;
    }
  }

  /** The closed formula finds the year a day of the era falls in. */
  lemma YearOfEraIs(doe: int, c: int, q: int, t: int, u: int)
    requires 0 <= doe < 146097
    requires 0 <= c <= 3 && 0 <= q <= 24 && 0 <= t <= 3 && 0 <= u <= 365
    requires doe == 36524 * c + 1461 * q + 365 * t + u
    requires u == 365 ==> t == 3 && (q == 24 ==> c == 3)
    requires doe == 146096 <==> c == 3 && q == 24 && t == 3 && u == 365
    ensures YearOfEra(doe) == 100 * c + 4 * q + t
  {
    var w := (24 * c + q + 365 * t + u) / 1460;
    assert doe == 1460 * (25 * c + q) + (24 * c + q + 365 * t + u);
    assert doe / 1460 == 25 * c + q + w;
    assert 0 <= u - w < 365;
    CenturyOfEra(doe, c, q, t, u);
    var n := doe - doe / 1460 + doe / 36524 - doe / 146096;
    assert n == 365 * (100 * c + 4 * q + t) + (u - w);
  }

  lemma CenturyOfEra(doe: int, c: int, q: int, t: int, u: int)
    requires 0 <= doe < 146097
    requires 0 <= c <= 3 && 0 <= q <= 24 && 0 <= t <= 3 && 0 <= u <= 365
    requires doe == 36524 * c + 1461 * q + 365 * t + u
    requires u == 365 ==> t == 3 && (q == 24 ==> c == 3)
    ensures doe / 36524 - doe / 146096 == c
  {
  }

  lemma YearOfEraInRange(doe: int)
    requires 0 <= doe < 146097
    ensures 0 <= YearOfEra(doe) < 400
    ensures YearStart(YearOfEra(doe)) <= doe < YearStart(YearOfEra(doe) + 1)
  {
    var c, q, t, u := SplitDay(doe);
    YearOfEraIs(doe, c, q, t, u);
    YearStartSplit(c, q, t);
  }

  /* ---------- months of a March-based year ---------- */

  function MonthStart(mp: int): int {
    (153 * mp + 2) / 5
  }

  function MonthOf(mp: int): int {
    mp + if mp < 10 then 3 else -9
  }

  lemma MonthOfDay(doy: int)
    requires 0 <= doy <= 365
    ensures var mp := (5 * doy + 2) / 153; 0 <= mp <= 11 && MonthStart(mp) <= doy < MonthStart(mp + 1)
  {
  }

  /** Every month but February, the last of a March-based year, has its full length. */
  lemma MonthStartStep(mp: int, year: int)
    requires 0 <= mp < 11
    ensures MonthStart(mp + 1) - MonthStart(mp) == MonthLength(year, MonthOf(mp))
  {
  }

  /** The standard inverse: days since 1970-01-01 of a civil date. */
  function DaysFromCivil(d: Date): int {
    var y := if d.month <= 2 then d.year - 1 else d.year;
    var mp := if d.month > 2 then d.month - 3 else d.month + 9;
    146097 * (y / 400) + YearStart(y % 400) + MonthStart(mp) + d.day - 1 - 719468
  }

  lemma EraIsFloor(z: int)
    ensures EraOf(z) == z / 146097 && 0 <= z - EraOf(z) * 146097 < 146097
  {
  }

  lemma DateOfYearDayParts(era: int, yoe: int, doy: int) returns (mp: int, day: int)
    requires 0 <= doy <= 365
    ensures 0 <= mp <= 11 && doy == MonthStart(mp) + day - 1
    ensures 1 <= day <= MonthStart(mp + 1) - MonthStart(mp)
    ensures DateOfYearDay(era, yoe, doy) == Date(yoe + era * 400 + (if MonthOf(mp) <= 2 then 1 else 0), MonthOf(mp), day)
  {
    MonthOfDay(doy);
    mp := (5 * doy + 2) / 153;
    day := doy - MonthStart(mp) + 1;
  }

  lemma EraDayParts(era: int, doe: int) returns (yoe: int, mp: int, day: int)
    requires 0 <= doe < 146097
    ensures 0 <= yoe < 400 && 0 <= mp <= 11
    ensures doe == YearStart(yoe) + MonthStart(mp) + day - 1
    ensures 1 <= day <= MonthStart(mp + 1) - MonthStart(mp)
    ensures MonthStart(mp) + day <= YearStart(yoe + 1) - YearStart(yoe)
    ensures DateOfEraDay(era, doe) == Date(yoe + era * 400 + (if MonthOf(mp) <= 2 then 1 else 0), MonthOf(mp), day)
  {
    var doy;
    yoe, doy := DayOfYear(doe);
    EraDayUnfolds(era, doe, yoe);
    mp, day := DateOfYearDayParts(era, yoe, doy);
  }

  lemma DayOfYear(doe: int) returns (yoe: int, doy: int)
    requires 0 <= doe < 146097
    ensures yoe == YearOfEra(doe) && 0 <= yoe < 400 && doy == doe - YearStart(yoe)
    ensures 0 <= doy <= 365 && doy < YearStart(yoe + 1) - YearStart(yoe)
  {
    yoe := YearOfEra(doe);
    YearOfEraInRange(doe);
    YearLength(yoe);
    doy := doe - YearStart(yoe);
  }

  lemma EraDayUnfolds(era: int, doe: int, yoe: int)
    requires yoe == YearOfEra(doe) && 0 <= yoe < 400
    ensures DateOfEraDay(era, doe) == DateOfYearDay(era, yoe, doe - YearStart(yoe))
  {
    YearStartUnfolds(yoe);
  }

  lemma YearStartUnfolds(yoe: int)
    requires 0 <= yoe < 400
    ensures YearStart(yoe) == 365 * yoe + TruncDiv(yoe, 4) - TruncDiv(yoe, 100)
  {
  }

  /** Every fourth year is long, except centuries, except every fourth century. */
  lemma YearLength(yoe: int)
    requires 0 <= yoe < 400
    ensures YearStart(yoe + 1) - YearStart(yoe) == 365 + (if Leap(yoe + 1) then 1 else 0)
  {
    var c, q, t := yoe / 100, (yoe % 100) / 4, yoe % 4;
    assert yoe == 100 * c + 4 * q + t;
    YearLengthOf(c, q, t);
  }

  lemma YearLengthOf(c: int, q: int, t: int)
    requires 0 <= c <= 3 && 0 <= q <= 24 && 0 <= t <= 3
    ensures var y := 100 * c + 4 * q + t; YearStart(y + 1) - YearStart(y) == 365 + (if Leap(y + 1) then 1 else 0)
  {
    YearStartSplit(c, q, t);
    LeapSplit(c, q, t);
  }

  lemma LeapSplit(c: int, q: int, t: int)
    requires 0 <= c <= 3 && 0 <= q <= 24 && 0 <= t <= 3
    ensures Leap(100 * c + 4 * q + t + 1) <==> t == 3 && (q < 24 || c == 3)
  {
  }

  lemma LeapRepeats(year: int, era: int)
    ensures Leap(year + 400 * era) == Leap(year)
  {
    ModRepeats(year, 100 * era, 4);
    ModRepeats(year, 4 * era, 100);
    ModRepeats(year, era, 400);
  }

  lemma ModRepeats(n: int, k: int, m: int)
    requires m > 0
    ensures (n + m * k) % m == n % m
  {
    var q, r := n / m, n % m;
    assert n + m * k == m * (q + k) + r by { assert m * (q + k) == m * q + m * k; }
    DivModUnique(n + m * k, m, q + k, r);
  }

  lemma DivModUnique(n: int, m: int, q: int, r: int)
    requires m > 0 && 0 <= r < m && n == m * q + r
    ensures n % m == r
  {
    var d := n / m - q;
    assert m * d == r - n % m by { assert m * d == m * (n / m) - m * q; }
    ProductIsLarge(m, d);
  }

  lemma ProductIsLarge(m: int, d: int)
    requires m > 0
    ensures d >= 1 ==> m * d >= m
    ensures d <= -1 ==> m * d <= -m
  {
  }

  lemma EraDayIsValid(era: int, doe: int)
    requires 0 <= doe < 146097
    ensures var d := DateOfEraDay(era, doe); Valid(d) && DaysFromCivil(d) == 146097 * era + doe - 719468
  {
    var yoe, mp, day := EraDayParts(era, doe);
    PartsAreValid(era, yoe, mp, day);
  }

  lemma PartsAreValid(era: int, yoe: int, mp: int, day: int)
    requires 0 <= yoe < 400 && 0 <= mp <= 11
    requires 1 <= day <= MonthStart(mp + 1) - MonthStart(mp)
    requires MonthStart(mp) + day <= YearStart(yoe + 1) - YearStart(yoe)
    ensures var d := Date(yoe + era * 400 + (if MonthOf(mp) <= 2 then 1 else 0), MonthOf(mp), day);
            Valid(d) && DaysFromCivil(d) == 146097 * era + YearStart(yoe) + MonthStart(mp) + day - 1 - 719468
  {
    var year := yoe + era * 400 + if MonthOf(mp) <= 2 then 1 else 0;
    if mp < 11 {
      MonthStartStep(mp, year);
    } else {
      YearLength(yoe);
      LeapRepeats(yoe + 1, era);
    }
    assert (yoe + 400 * era) / 400 == era && (yoe + 400 * era) % 400 == yoe;
  }

  /** Every day number gives a date of the calendar, and the standard inverse gives the number back. */
  lemma CivilIsValid(days: int)
    ensures Valid(CivilFromDays(days))
    ensures DaysFromCivil(CivilFromDays(days)) == days
  {
    var z := days + 719468;
    EraIsFloor(z);
    EraDayIsValid(EraOf(z), z - EraOf(z) * 146097);
  }

  /** The inverse counts days: the next date has the next number. */
  lemma SuccessorCounts(d: Date)
    requires Valid(d)
    ensures Valid(Successor(d)) && DaysFromCivil(Successor(d)) == DaysFromCivil(d) + 1
  {
    if d.day == MonthLength(d.year, d.month) {
      if d.month == 2 {
        FebruaryEnds(d.year - 1);
      } else {
        MonthEnds(d);
      }
    }
  }

  lemma MonthEnds(d: Date)
    requires Valid(d) && d.day == MonthLength(d.year, d.month) && d.month != 2
    ensures DaysFromCivil(Successor(d)) == DaysFromCivil(d) + 1
  {
    MonthStartStep(if d.month > 2 then d.month - 3 else d.month + 9, d.year);
  }

  /** March of the year after `y` starts where the March-based year `y` and its February end. */
  lemma FebruaryEnds(y: int)
    ensures 146097 * ((y + 1) / 400) + YearStart((y + 1) % 400)
         == 146097 * (y / 400) + YearStart(y % 400) + MonthStart(11) + MonthLength(y + 1, 2)
  {
    var era, yoe := y / 400, y % 400;
    YearLength(yoe);
    LeapRepeats(yoe + 1, era);
    assert y + 1 == yoe + 1 + 400 * era;
    NextYearOfEra(y);
    assert YearStart(400) == 146097 + YearStart(0);
  }

  lemma NextYearOfEra(y: int)
    ensures y % 400 == 399 ==> (y + 1) / 400 == y / 400 + 1 && (y + 1) % 400 == 0
    ensures y % 400 != 399 ==> (y + 1) / 400 == y / 400 && (y + 1) % 400 == y % 400 + 1
  {
  }

  ghost predicate Before(d: Date, e: Date) {
    d.year < e.year || (d.year == e.year && (d.month < e.month || (d.month == e.month && d.day < e.day)))
  }

  lemma SuccessorIsLater(d: Date)
    requires Valid(d)
    ensures Before(d, Successor(d))
  {
  }

  lemma {:induction false} LaterDateLargerNumber(d: Date, e: Date, steps: nat)
    requires Valid(d) && Valid(e) && Before(d, e) && steps == 372 * (e.year - d.year) + 31 * (e.month - d.month) + e.day - d.day
    ensures DaysFromCivil(d) < DaysFromCivil(e)
    decreases steps
  {
    var s := Successor(d);
    SuccessorCounts(d);
    SuccessorIsLater(d);
    if s != e {
      LaterDateLargerNumber(s, e, 372 * (e.year - s.year) + 31 * (e.month - s.month) + e.day - s.day);
    }
  }

  lemma BeforeHasSteps(d: Date, e: Date)
    requires Valid(d) && Valid(e) && Before(d, e)
    ensures 372 * (e.year - d.year) + 31 * (e.month - d.month) + e.day - d.day > 0
  {
  }

  /** Dates and day numbers correspond one to one: the closed formula undoes the inverse on every valid date. */
  lemma CivilInverts(d: Date)
    requires Valid(d)
    ensures CivilFromDays(DaysFromCivil(d)) == d
  {
    var e := CivilFromDays(DaysFromCivil(d));
    CivilIsValid(DaysFromCivil(d));
    if Before(d, e) {
      BeforeHasSteps(d, e);
      LaterDateLargerNumber(d, e, 372 * (e.year - d.year) + 31 * (e.month - d.month) + e.day - d.day);
    }
    if Before(e, d) {
      BeforeHasSteps(e, d);
      LaterDateLargerNumber(e, d, 372 * (d.year - e.year) + 31 * (d.month - e.month) + d.day - e.day);
    }
  }

  /** Day n + 1 is the calendar day after day n. */
  lemma CivilSuccessor(days: int)
    ensures CivilFromDays(days + 1) == Successor(CivilFromDays(days))
  {
    var d := CivilFromDays(days);
    CivilIsValid(days);
    SuccessorCounts(d);
    CivilUnique(Successor(d), days + 1);
  }

  lemma CivilUnique(d: Date, days: int)
    requires Valid(d) && DaysFromCivil(d) == days
    ensures CivilFromDays(days) == d
  {
    CivilInverts(d);
  }

  /** Day 0 is the Unix epoch, so days from it on are in 1970 or later. */
  lemma EpochIsDayZero(days: nat)
    ensures CivilFromDays(0) == Date(1970, 1, 1)
    ensures CivilFromDays(days).year >= 1970
  {
    var epoch := Date(1970, 1, 1);
    assert 1969 / 400 == 4 && 1969 % 400 == 369;
    assert YearStart(369) == 134774 && MonthStart(10) == 306;
    assert DaysFromCivil(epoch) == 0;
    CivilInverts(epoch);
    CivilOrder(days, 0);
    CivilIsValid(days);
  }

  lemma CivilOrder(a: int, b: int)
    ensures Before(CivilFromDays(a), CivilFromDays(b)) <==> a < b
  {
    CivilIsValid(a);
    CivilIsValid(b);
    var d, e := CivilFromDays(a), CivilFromDays(b);
    if Before(d, e) {
      BeforeHasSteps(d, e);
      LaterDateLargerNumber(d, e, 372 * (e.year - d.year) + 31 * (e.month - d.month) + e.day - d.day);
    }
    if Before(e, d) {
      BeforeHasSteps(e, d);
      LaterDateLargerNumber(e, d, 372 * (d.year - e.year) + 31 * (d.month - e.month) + d.day - e.day);
    }
  }

  /* ---------- the timestamp ---------- */

  datatype Moment = Moment(date: Date, hour: nat, minute: nat, second: nat)

  function MomentOf(seconds: nat): Moment {
    var rest := seconds % 86400;
    Moment(CivilFromDays(seconds / 86400), rest / 3600, (rest % 3600) / 60, rest % 60)
  }

  function SecondsOf(m: Moment): int {
    86400 * DaysFromCivil(m.date) + 3600 * m.hour + 60 * m.minute + m.second
  }

  lemma ClockSplit(rest: nat)
    ensures rest == 3600 * (rest / 3600) + 60 * ((rest % 3600) / 60) + rest % 60
    ensures rest < 86400 ==> rest / 3600 < 24
    ensures (rest % 3600) / 60 < 60
  {
  }

  /** The split loses nothing and every part is in range. */
  lemma MomentIsExact(seconds: nat)
    ensures var m := MomentOf(seconds);
            && SecondsOf(m) == seconds
            && Valid(m.date) && m.date.year >= 1970
            && m.hour < 24 && m.minute < 60 && m.second < 60
  {
    var days, rest := seconds / 86400, seconds % 86400;
    CivilIsValid(days);
    EpochIsDayZero(days);
    ClockSplit(rest);
    assert seconds == 86400 * days + rest;
  }

  const WIDTHS: seq<nat> := [4, 2, 2, 2, 2, 2]
  const MARKS := "--T::Z"

  function Parts(m: Moment): seq<nat>
    requires m.date.year >= 0 && m.date.month >= 0 && m.date.day >= 0
  {
    [m.date.year, m.date.month, m.date.day, m.hour, m.minute, m.second]
  }

  /** Numbers padded to their widths, each followed by its mark. */
  function Print(values: seq<nat>, widths: seq<nat>, marks: string): string
    requires |values| == |widths| == |marks|
  {
    if values == [] then "" else Padded(values[0], widths[0]) + [marks[0]] + Print(values[1..], widths[1..], marks[1..])
  }

  /** `yyyy-mm-ddThh:mm:ssZ`, the date-time shape of section 5.6 of RFC 3339. */
  function Stamp(seconds: nat): string {
    MomentIsExact(seconds);
    Print(Parts(MomentOf(seconds)), WIDTHS, MARKS)
  }

  ghost predicate Fit(values: seq<nat>, widths: seq<nat>) {
    |values| == |widths| && forall i :: 0 <= i < |values| ==> widths[i] > 0 && values[i] < Pow10(widths[i])
  }

  ghost predicate Earlier(a: seq<nat>, b: seq<nat>)
    requires |a| == |b|
  {
    a != [] && (a[0] < b[0] || (a[0] == b[0] && Earlier(a[1..], b[1..])))
  }

  /** Fields that fit their widths sort as text the way their numbers sort. */
  lemma {:induction false} PrintOrder(a: seq<nat>, b: seq<nat>, widths: seq<nat>, marks: string)
    requires |a| == |b| == |widths| == |marks| && Fit(a, widths) && Fit(b, widths)
    ensures Less(Print(a, widths, marks), Print(b, widths, marks)) <==> Earlier(a, b)
    decreases |a|
  {
    if a != [] {
      PrintOrder(a[1..], b[1..], widths[1..], marks[1..]);
      FieldOrder(a[0], b[0], widths[0], marks[0],
                 Print(a[1..], widths[1..], marks[1..]), Print(b[1..], widths[1..], marks[1..]));
    }
  }

  lemma FieldOrder(x: nat, y: nat, width: nat, mark: char, restX: string, restY: string)
    requires width > 0 && x < Pow10(width) && y < Pow10(width)
    ensures Less(Padded(x, width) + [mark] + restX, Padded(y, width) + [mark] + restY)
       <==> x < y || (x == y && Less(restX, restY))
  {
    PaddedIsDigits(x, width);
    PaddedIsDigits(y, width);
    DigitsOrder(x, y, width);
    var p, q, m := Padded(x, width), Padded(y, width), [mark];
    LessTotal(m, m);
    LessConcat(m, restX, m, restY);
    LessConcat(p, m + restX, q, m + restY);
    assert p + m + restX == p + (m + restX) && q + m + restY == q + (m + restY);
  }

  function Sum(widths: seq<nat>): nat {
    if widths == [] then 0 else widths[0] + Sum(widths[1..])
  }

  lemma {:induction false} PrintLength(values: seq<nat>, widths: seq<nat>, marks: string)
    requires |values| == |widths| == |marks| && Fit(values, widths)
    ensures |Print(values, widths, marks)| == Sum(widths) + |marks|
    decreases |values|
  {
    if values != [] {
      PaddedIsDigits(values[0], widths[0]);
      PrintLength(values[1..], widths[1..], marks[1..]);
    }
  }

  /** The day number of 10000-01-01. */
  const FIVE_DIGIT_DAY: nat := 2932897

  /** The first second whose year has five digits. */
  const FIVE_DIGIT_YEARS: nat := 86400 * FIVE_DIGIT_DAY

  lemma FourDigitYears(days: nat)
    ensures CivilFromDays(FIVE_DIGIT_DAY) == Date(10000, 1, 1)
    ensures CivilFromDays(days).year <= 9999 <==> days < FIVE_DIGIT_DAY
  {
    var limit := Date(10000, 1, 1);
    assert 9999 / 400 == 24 && 9999 % 400 == 399;
    assert YearStart(399) == 145731 && MonthStart(10) == 306;
    assert DaysFromCivil(limit) == FIVE_DIGIT_DAY;
    CivilInverts(limit);
    CivilOrder(days, FIVE_DIGIT_DAY);
    CivilIsValid(days);
  }

  lemma PowersOfTen()
    ensures Pow10(2) == 100 && Pow10(4) == 10000
  {
    assert Pow10(1) == 10 && Pow10(3) == 1000;
  }

  lemma PartsFit(seconds: nat)
    requires seconds < FIVE_DIGIT_YEARS
    ensures var m := MomentOf(seconds); m.date.year >= 0 && Valid(m.date) && Fit(Parts(m), WIDTHS)
  {
    MomentIsExact(seconds);
    FourDigitYears(seconds / 86400);
    SmallPartsFit(MomentOf(seconds));
  }

  lemma SmallPartsFit(m: Moment)
    requires 0 <= m.date.year <= 9999 && Valid(m.date) && m.hour < 24 && m.minute < 60 && m.second < 60
    ensures Fit(Parts(m), WIDTHS)
  {
    PowersOfTen();
  }

  /** Up to year 9999 a timestamp has 20 characters, and timestamps sort as text exactly as they do in time. */
  lemma StampOrder(a: nat, b: nat)
    requires a < FIVE_DIGIT_YEARS && b < FIVE_DIGIT_YEARS
    ensures Less(Stamp(a), Stamp(b)) <==> a < b
    ensures |Stamp(a)| == 20
  {
    PartsFit(a);
    PartsFit(b);
    var m, n := MomentOf(a), MomentOf(b);
    PrintOrder(Parts(m), Parts(n), WIDTHS, MARKS);
    PrintLength(Parts(m), WIDTHS, MARKS);
    assert Sum(WIDTHS) == 14 by { SumOfWidths(); }
    EarlierMoment(a, b);
  }

  /** From year 10000 on the order of the texts is no longer the order of time. */
  lemma FiveDigitYearsSortFirst()
    ensures Less(Stamp(FIVE_DIGIT_YEARS), Stamp(0))
  {
    LateYearPrinted();
    EpochPrinted();
    LessByPrefix("10", "19", Stamp(FIVE_DIGIT_YEARS), Stamp(0));
  }

  /** Below `n` seconds, the order of the texts is the order of time. */
  ghost predicate SortsAsTime(n: nat) {
    forall a: nat, b: nat :: a < n && b < n ==> (Less(Stamp(a), Stamp(b)) <==> a < b)
  }

  /** Text order is time order for all instants below `n` exactly when none of them has a five-digit year. */
  lemma SortsAsTimeExactly(n: nat)
    ensures SortsAsTime(n) <==> n <= FIVE_DIGIT_YEARS
  {
    if n <= FIVE_DIGIT_YEARS {
      forall a: nat, b: nat | a < n && b < n
        ensures Less(Stamp(a), Stamp(b)) <==> a < b
      {
        StampOrder(a, b);
      }
    } else {
      FiveDigitYearsSortFirst();
    }
  }

  lemma LateYearPrinted()
    ensures "10" <= Stamp(FIVE_DIGIT_YEARS)
  {
    YearPrinted(FIVE_DIGIT_YEARS, FIVE_DIGIT_DAY);
    FourDigitYears(0);
    YearTexts();
  }

  lemma EpochPrinted()
    ensures "19" <= Stamp(0)
  {
    YearPrinted(0, 0);
    EpochIsDayZero(0);
    YearTexts();
  }

  lemma YearTexts()
    ensures "10" <= Padded(10000, 4) && "19" <= Padded(1970, 4)
  {
    assert Decimal(1) == "1" && Decimal(10) == "10" && Decimal(100) == "100" && Decimal(1000) == "1000";
    assert Decimal(10000) == "10000";
    assert Decimal(19) == "19" && Decimal(197) == "197" && Decimal(1970) == "1970";
  }

  lemma YearPrinted(seconds: nat, days: nat)
    requires seconds == 86400 * days
    ensures CivilFromDays(days).year >= 0 && Padded(CivilFromDays(days).year, 4) <= Stamp(seconds)
  {
    MomentIsExact(seconds);
    assert seconds / 86400 == days;
    FirstPrinted(Parts(MomentOf(seconds)));
  }

  lemma FirstPrinted(parts: seq<nat>)
    requires |parts| == 6
    ensures Padded(parts[0], 4) <= Print(parts, WIDTHS, MARKS)
  {
  }

  lemma LessByPrefix(x: string, y: string, s: string, t: string)
    requires |x| == |y| == 2 && x[0] == y[0] && x[1] < y[1]
    requires x <= s && y <= t
    ensures Less(s, t)
  {
    assert s[0] == x[0] && s[1] == x[1] && t[0] == y[0] && t[1] == y[1];
  }

  lemma SumOfWidths()
    ensures Sum(WIDTHS) == 14
  {
  }

  /** Comparing the printed parts from the left compares the instants. */
  lemma EarlierMoment(a: nat, b: nat)
    ensures MomentOf(a).date.year >= 0 && Valid(MomentOf(a).date)
    ensures MomentOf(b).date.year >= 0 && Valid(MomentOf(b).date)
    ensures Earlier(Parts(MomentOf(a)), Parts(MomentOf(b))) <==> a < b
  {
    MomentIsExact(a);
    MomentIsExact(b);
    var m, n := MomentOf(a), MomentOf(b);
    EarlierDate(m, n);
    EarlierClock(m, n);
    CivilOrder(a / 86400, b / 86400);
    CivilOrder(b / 86400, a / 86400);
    CivilIsValid(a / 86400);
    CivilIsValid(b / 86400);
    assert DaysFromCivil(m.date) == a / 86400 && DaysFromCivil(n.date) == b / 86400;
    assert !Before(m.date, n.date) && !Before(n.date, m.date) ==> m.date == n.date;
  }

  function Clock(m: Moment): seq<nat> {
    [m.hour, m.minute, m.second]
  }

  lemma EarlierDate(m: Moment, n: Moment)
    requires m.date.year >= 0 && n.date.year >= 0 && Valid(m.date) && Valid(n.date)
    ensures Earlier(Parts(m), Parts(n)) <==> Before(m.date, n.date) || (m.date == n.date && Earlier(Clock(m), Clock(n)))
  {
    var a, b := Parts(m), Parts(n);
    assert a[1..] == [m.date.month, m.date.day] + Clock(m);
    assert b[1..] == [n.date.month, n.date.day] + Clock(n);
    assert a[2..] == [m.date.day] + Clock(m) == a[1..][1..] && a[3..] == Clock(m) == a[2..][1..];
    assert b[2..] == [n.date.day] + Clock(n) == b[1..][1..] && b[3..] == Clock(n) == b[2..][1..];
    assert Earlier(a[2..], b[2..]) <==> a[2] < b[2] || (a[2] == b[2] && Earlier(Clock(m), Clock(n)));
    assert Earlier(a[1..], b[1..]) <==> a[1] < b[1] || (a[1] == b[1] && Earlier(a[2..], b[2..]));
    assert Earlier(a, b) <==> a[0] < b[0] || (a[0] == b[0] && Earlier(a[1..], b[1..]));
  }

  lemma EarlierClock(m: Moment, n: Moment)
    requires m.minute < 60 && m.second < 60 && n.minute < 60 && n.second < 60
    ensures Earlier(Clock(m), Clock(n)) <==>
            3600 * m.hour + 60 * m.minute + m.second < 3600 * n.hour + 60 * n.minute + n.second
  {
    var a, b := Clock(m), Clock(n);
    assert a[1..] == [m.minute, m.second] && a[2..] == [m.second] == a[1..][1..] && a[2..][1..] == [];
    assert b[1..] == [n.minute, n.second] && b[2..] == [n.second] == b[1..][1..] && b[2..][1..] == [];
    assert Earlier(a[2..], b[2..]) <==> a[2] < b[2];
    assert Earlier(a[1..], b[1..]) <==> a[1] < b[1] || (a[1] == b[1] && Earlier(a[2..], b[2..]));
    assert Earlier(a, b) <==> a[0] < b[0] || (a[0] == b[0] && Earlier(a[1..], b[1..]));
  }

  /* ---------- the printed text ---------- */

  /** `text` is `n` in decimal digits, at least `width` of them and exactly that many if they suffice. */
  ghost predicate Field(text: string, n: nat, width: nat) {
    AllDigits(text) && Value(text) == n && |text| >= width && (n < Pow10(width) ==> |text| == width)
  }

  lemma {:induction false} ValueBehindZeros(k: nat, s: string)
    requires AllDigits(s)
    ensures AllDigits(Zeros(k) + s) && Value(Zeros(k) + s) == Value(s)
    decreases |s|
  {
    if s != "" {
      var front := s[..|s| - 1];
      assert (Zeros(k) + s)[..|Zeros(k) + s| - 1] == Zeros(k) + front;
      ValueBehindZeros(k, front);
    } else {
      ZerosAreNothing(k);
      assert Zeros(k) + s == Zeros(k);
    }
  }

  lemma {:induction false} ZerosAreNothing(k: nat)
    ensures AllDigits(Zeros(k)) && Value(Zeros(k)) == 0
  {
    if k > 0 {
      assert Zeros(k)[..k - 1] == Zeros(k - 1);
      ZerosAreNothing(k - 1);
    }
  }

  lemma PaddedIsField(n: nat, width: nat)
    requires width > 0
    ensures Field(Padded(n, width), n, width)
  {
    DecimalIsNumeral(n);
    if |Decimal(n)| < width { ValueBehindZeros(width - |Decimal(n)|, Decimal(n)); }
    if n < Pow10(width) { PaddedIsDigits(n, width); }
  }

  lemma PrintCons(v: nat, w: nat, m: char, values: seq<nat>, widths: seq<nat>, marks: string)
    requires |values| == |widths| == |marks|
    ensures Print([v] + values, [w] + widths, [m] + marks) == Padded(v, w) + [m] + Print(values, widths, marks)
  {
    assert ([v] + values)[1..] == values && ([w] + widths)[1..] == widths && ([m] + marks)[1..] == marks;
  }

  lemma Layout()
    ensures WIDTHS == [4] + ([2] + ([2] + [2, 2, 2])) && MARKS == "-" + ("-" + ("T" + "::Z"))
  {
  }

  lemma PrintDate(y: nat, mo: nat, d: nat, rest: seq<nat>, widths: seq<nat>, marks: string)
    requires |rest| == |widths| == |marks|
    ensures Print([y] + ([mo] + ([d] + rest)), [4] + ([2] + ([2] + widths)), "-" + ("-" + ("T" + marks)))
         == Padded(y, 4) + "-" + (Padded(mo, 2) + "-" + (Padded(d, 2) + "T" + Print(rest, widths, marks)))
  {
    PrintCons(d, 2, 'T', rest, widths, marks);
    PrintCons(mo, 2, '-', [d] + rest, [2] + widths, "T" + marks);
    PrintCons(y, 4, '-', [mo] + ([d] + rest), [2] + ([2] + widths), "-" + ("T" + marks));
  }

  lemma PrintClock(h: nat, mi: nat, s: nat)
    ensures Print([h, mi, s], [2, 2, 2], "::Z") == Padded(h, 2) + ":" + (Padded(mi, 2) + ":" + (Padded(s, 2) + "Z"))
  {
    PrintCons(s, 2, 'Z', [], [], "");
    PrintCons(mi, 2, ':', [s], [2], "Z");
    PrintCons(h, 2, ':', [mi, s], [2, 2], ":Z");
    assert [h, mi, s] == [h] + [mi, s] && [mi, s] == [mi] + [s] && [s] == [s] + [];
    assert [2, 2, 2] == [2] + [2, 2] && [2, 2] == [2] + [2] && [2] == [2] + [];
    assert "::Z" == ":" + ":Z" && ":Z" == ":" + "Z" && "Z" == "Z" + "";
    assert Padded(s, 2) + "Z" + "" == Padded(s, 2) + "Z";
  }

  lemma PrintMoment(y: nat, mo: nat, d: nat, h: nat, mi: nat, s: nat)
    ensures Print([y, mo, d, h, mi, s], WIDTHS, MARKS)
         == Padded(y, 4) + "-" + (Padded(mo, 2) + "-" + (Padded(d, 2) + "T"
            + (Padded(h, 2) + ":" + (Padded(mi, 2) + ":" + (Padded(s, 2) + "Z")))))
  {
    Layout();
    PrintDate(y, mo, d, [h, mi, s], [2, 2, 2], "::Z");
    PrintClock(h, mi, s);
    assert [y, mo, d, h, mi, s] == [y] + ([mo] + ([d] + [h, mi, s]));
  }

  /** The timestamp is year, month and day with hyphens, `T`, and hours, minutes and seconds with colons, and `Z`. */
  lemma StampText(seconds: nat) returns (year: string, month: string, day: string, hour: string, minute: string, second: string)
    ensures Stamp(seconds) == year + "-" + (month + "-" + (day + "T" + (hour + ":" + (minute + ":" + (second + "Z")))))
    ensures var m := MomentOf(seconds);
            && m.date.year >= 0 && m.date.month >= 0 && m.date.day >= 0
            && Field(year, m.date.year, 4) && Field(month, m.date.month, 2) && Field(day, m.date.day, 2)
            && Field(hour, m.hour, 2) && Field(minute, m.minute, 2) && Field(second, m.second, 2)
  {
    MomentIsExact(seconds);
    var m := MomentOf(seconds);
    year, month, day := Padded(m.date.year, 4), Padded(m.date.month, 2), Padded(m.date.day, 2);
    hour, minute, second := Padded(m.hour, 2), Padded(m.minute, 2), Padded(m.second, 2);
    MomentFields(m);
    PrintMoment(m.date.year, m.date.month, m.date.day, m.hour, m.minute, m.second);
  }

  lemma MomentFields(m: Moment)
    requires m.date.year >= 0 && m.date.month >= 0 && m.date.day >= 0
    ensures Field(Padded(m.date.year, 4), m.date.year, 4)
    ensures Field(Padded(m.date.month, 2), m.date.month, 2) && Field(Padded(m.date.day, 2), m.date.day, 2)
    ensures Field(Padded(m.hour, 2), m.hour, 2) && Field(Padded(m.minute, 2), m.minute, 2) && Field(Padded(m.second, 2), m.second, 2)
  {
    PaddedIsField(m.date.year, 4);
    PaddedIsField(m.date.month, 2);
    PaddedIsField(m.date.day, 2);
    PaddedIsField(m.hour, 2);
    PaddedIsField(m.minute, 2);
    PaddedIsField(m.second, 2);
  }

  lemma Joined6(year: string, month: string, day: string, hour: string, minute: string, second: string)
    requires |year| == 4 && |month| == |day| == |hour| == |minute| == |second| == 2
    ensures var t := year + "-" + (month + "-" + (day + "T" + (hour + ":" + (minute + ":" + (second + "Z")))));
            && |t| == 20
            && t[4] == '-' && t[7] == '-' && t[10] == 'T' && t[13] == ':' && t[16] == ':' && t[19] == 'Z'
            && t[..4] == year && t[5..7] == month && t[8..10] == day
            && t[11..13] == hour && t[14..16] == minute && t[17..19] == second
  {
  }

  /** Up to year 9999: the mark at each of the six places, and the six numbers that can be read back between them. */
  lemma StampReadsBack(seconds: nat)
    requires seconds < FIVE_DIGIT_YEARS
    ensures var t, m := Stamp(seconds), MomentOf(seconds);
            && |t| == 20
            && t[4] == '-' && t[7] == '-' && t[10] == 'T' && t[13] == ':' && t[16] == ':' && t[19] == 'Z'
            && Says(t[..4], m.date.year) && Says(t[5..7], m.date.month) && Says(t[8..10], m.date.day)
            && Says(t[11..13], m.hour) && Says(t[14..16], m.minute) && Says(t[17..19], m.second)
  {
    var year, month, day, hour, minute, second := StampText(seconds);
    PartsFit(seconds);
    MomentWidths(MomentOf(seconds));
    Joined6(year, month, day, hour, minute, second);
  }

  ghost predicate Says(text: string, n: int) {
    AllDigits(text) && Value(text) == n
  }

  lemma MomentWidths(m: Moment)
    requires m.date.year >= 0 && Valid(m.date) && Fit(Parts(m), WIDTHS)
    ensures m.date.year < Pow10(4) && m.date.month < Pow10(2) && m.date.day < Pow10(2)
    ensures m.hour < Pow10(2) && m.minute < Pow10(2) && m.second < Pow10(2)
  {
    var parts := Parts(m);
    assert parts[0] < Pow10(WIDTHS[0]) && parts[1] < Pow10(WIDTHS[1]) && parts[2] < Pow10(WIDTHS[2]);
    assert parts[3] < Pow10(WIDTHS[3]) && parts[4] < Pow10(WIDTHS[4]) && parts[5] < Pow10(WIDTHS[5]);
  }
}
