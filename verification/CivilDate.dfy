/** bench/src/lib.rs's utc: days since 1970-01-01 to a date of the Gregorian
    calendar, by one chain of divisions. */
module CivilDate {
  import opened Arith
  import opened Decimals

  datatype Date = Date(year: int, month: int, day: int)

  // ---- The calendar ----

  predicate Leap(y: int) { y % 4 == 0 && (y % 100 != 0 || y % 400 == 0) }

  function DaysIn(y: int, m: int): int {
    if m == 2 then (if Leap(y) then 29 else 28)
    else if m == 4 || m == 6 || m == 9 || m == 11 then 30
    else 31
  }

  predicate Valid(d: Date) { 1 <= d.month <= 12 && 1 <= d.day <= DaysIn(d.year, d.month) }

  /** The day after. */
  function Tomorrow(d: Date): Date {
    if d.day < DaysIn(d.year, d.month) then d.(day := d.day + 1)
    else if d.month < 12 then Date(d.year, d.month + 1, 1)
    else Date(d.year + 1, 1, 1)
  }

  /** The calendar counted off from 1970-01-01. */
  function Counted(days: nat): Date {
    if days == 0 then Date(1970, 1, 1) else Tomorrow(Counted(days - 1))
  }

  // ---- The chain of divisions ----

  function Yoe(doe: int): int { (doe - doe / 1460 + doe / 36524 - doe / 146096) / 365 }

  function Doy(doe: int): int { doe - (365 * Yoe(doe) + Yoe(doe) / 4 - Yoe(doe) / 100) }

  /** The date of a day of a year that starts in March, year y of it. */
  function DateIn(y: int, doy: int): Date {
    var mp := (5 * doy + 2) / 153;
    var day := doy - (153 * mp + 2) / 5 + 1;
    var month := if mp < 10 then mp + 3 else mp - 9;
    Date(y + (if month <= 2 then 1 else 0), month, day)
  }

  function DateOf(days: nat): Date {
    var z := days + 719468;
    var era, doe := z / 146097, z % 146097;
    DateIn(Yoe(doe) + era * 400, Doy(doe))
  }

  // ---- A day's place in its 400 years: century, leap cycle, year, day ----

  datatype Place = Place(era: int, c: int, q: int, k: int, doy: int)

  /** The years of a place, from March 1st of year 0. */
  function YearOf(p: Place): int { 400 * p.era + 100 * p.c + 4 * p.q + p.k }

  /** The last day of the year of p: a leap day when the February at its end
      has one. */
  function LastDay(p: Place): int { if p.k == 3 && (p.q < 24 || p.c == 3) then 365 else 364 }

  predicate In(p: Place) { 0 <= p.c <= 3 && 0 <= p.q <= 24 && 0 <= p.k <= 3 && 0 <= p.doy <= LastDay(p) }

  function DoeOf(p: Place): int { 36524 * p.c + 1461 * p.q + 365 * p.k + p.doy }

  /** Days from March 1st of year 0. */
  function DaysTo(p: Place): int { 146097 * p.era + DoeOf(p) }

  function PlaceOf(z: int): (p: Place)
    ensures In(p) && DaysTo(p) == z
  {
    var era, doe := z / 146097, z % 146097;
    var c := if doe / 36524 > 3 then 3 else doe / 36524;
    var r := doe - 36524 * c;
    var q := if r / 1461 > 24 then 24 else r / 1461;
    var s := r - 1461 * q;
    var k := if s / 365 > 3 then 3 else s / 365;
    Place(era, c, q, k, s - 365 * k)
  }

  function Later(p: Place): Place {
    if p.doy < LastDay(p) then p.(doy := p.doy + 1)
    else if p.k < 3 then p.(k := p.k + 1, doy := 0)
    else if p.q < 24 then p.(q := p.q + 1, k := 0, doy := 0)
    else if p.c < 3 then p.(c := p.c + 1, q := 0, k := 0, doy := 0)
    else Place(p.era + 1, 0, 0, 0, 0)
  }

  lemma LaterIsOneMore(p: Place)
    requires In(p)
    ensures In(Later(p)) && DaysTo(Later(p)) == DaysTo(p) + 1
  {
  }

  /** A quotient is the number it is between the multiples of. */
  lemma Quotient(a: int, b: int, n: int)
    requires b > 0 && n * b <= a < n * b + b
    ensures a / b == n
  {
    var q := a / b;
    assert a == q * b + a % b;
    Distribute(q, b);
    Distribute(n, b);
    MulLtCancels(n, q + 1, b);
    MulLtCancels(q, n + 1, b);
  }

  /** The days the first quotient counts too many: the leap days so far, and
      one more late in a leap year. */
  lemma FirstQuotient(p: Place)
    requires In(p)
    ensures DoeOf(p) / 1460 == 25 * p.c + p.q + (if 24 * p.c + p.q + 365 * p.k + p.doy >= 1460 then 1 else 0)
  {
    Quotient(DoeOf(p), 1460, 25 * p.c + p.q + (if 24 * p.c + p.q + 365 * p.k + p.doy >= 1460 then 1 else 0));
  }

  lemma OtherQuotients(p: Place)
    requires In(p)
    ensures 0 <= DoeOf(p) < 146097
    ensures DoeOf(p) / 36524 - DoeOf(p) / 146096 == p.c
  {
    var last := if DoeOf(p) == 146096 then 1 else 0;
    Quotient(DoeOf(p), 36524, p.c + last);
    Quotient(DoeOf(p), 146096, last);
  }

  /** The chain finds the year and the day in it. */
  lemma TheChainFindsThePlace(p: Place)
    requires In(p)
    ensures 0 <= DoeOf(p) < 146097
    ensures Yoe(DoeOf(p)) == 100 * p.c + 4 * p.q + p.k
    ensures Doy(DoeOf(p)) == p.doy
  {
    YearFound(p);
    var y := 100 * p.c + 4 * p.q + p.k;
    Quotient(y, 4, 25 * p.c + p.q);
    Quotient(y, 100, p.c);
    hide Yoe;
  }

  lemma YearFound(p: Place)
    requires In(p)
    ensures 0 <= DoeOf(p) < 146097
    ensures Yoe(DoeOf(p)) == 100 * p.c + 4 * p.q + p.k
  {
    FirstQuotient(p);
    OtherQuotients(p);
    var e := if 24 * p.c + p.q + 365 * p.k + p.doy >= 1460 then 1 else 0;
    var y := 100 * p.c + 4 * p.q + p.k;
    Quotient(365 * y + p.doy - e, 365, y);
  }

  lemma DateOfPlace(days: nat, p: Place)
    requires In(p) && DaysTo(p) == days + 719468
    ensures DateOf(days) == DateIn(YearOf(p), p.doy)
  {
    hide Yoe, Doy, DateIn, In;
    TheChainFindsThePlace(p);
    EraFound(days + 719468, p.era, DoeOf(p));
  }

  lemma EraFound(z: int, era: int, doe: int)
    requires z == 146097 * era + doe && 0 <= doe < 146097
    ensures z / 146097 == era && z % 146097 == doe
  {
    Quotient(z, 146097, era);
  }

  // ---- The months ----

  lemma DateIsValid(p: Place)
    requires In(p)
    ensures Valid(DateIn(YearOf(p), p.doy))
  {
    LeapTells(p);
  }

  /** The year ends in a leap February just when its last day is the 366th. */
  lemma LeapTells(p: Place)
    requires In(p)
    ensures Leap(YearOf(p) + 1) <==> LastDay(p) == 365
  {
    var y := YearOf(p) + 1;
    var four := 100 * p.era + 25 * p.c + p.q;
    var hundred := 4 * p.era + p.c;
    if p.k < 3 {
      DivModUnique(four, p.k + 1, 4);
    } else {
      DivModUnique(four + 1, 0, 4);
      if p.q < 24 {
        DivModUnique(hundred, 4 * p.q + 4, 100);
      } else if p.c < 3 {
        DivModUnique(p.era, 100 * p.c + 100, 400);
        DivModUnique(hundred + 1, 0, 100);
      } else {
        DivModUnique(p.era + 1, 0, 400);
      }
    }
  }

  /** The date of the next place is the next date. */
  lemma LaterIsTomorrow(p: Place)
    requires In(p)
    ensures DateIn(YearOf(Later(p)), Later(p).doy) == Tomorrow(DateIn(YearOf(p), p.doy))
  {
    LeapTells(p);
  }

  // ---- The chain is the calendar ----

  /** Day n's date is 1970-01-01 counted on n days, a date of the calendar. */
  lemma {:induction false} EveryDayIsCounted(days: nat)
    ensures DateOf(days) == Counted(days) && Valid(DateOf(days))
  {
    hide DateIn, DaysTo, Tomorrow, Later, In, YearOf, PlaceOf;
    var p := PlaceOf(days + 719468);
    DateOfPlace(days, p);
    DateIsValid(p);
    if days == 0 {
      TheFirstDay();
    } else {
      EveryDayIsCounted(days - 1);
      var q := PlaceOf(days - 1 + 719468);
      LaterIsOneMore(q);
      LaterIsTomorrow(q);
      DateOfPlace(days - 1, q);
      DateOfPlace(days, Later(q));
    }
  }

  lemma TheFirstDay()
    ensures DateOf(0) == Date(1970, 1, 1)
  {
  }

  function DaysBeforeYear(y: int): int {
    if y <= 1970 then 0 else DaysBeforeYear(y - 1) + (if Leap(y - 1) then 366 else 365)
  }

  function DaysBeforeMonth(y: int, m: int): int {
    if m <= 1 then 0 else DaysBeforeMonth(y, m - 1) + DaysIn(y, m - 1)
  }

  /** The days from 1970-01-01 to a date, by the years and months before it. */
  function DayNumber(d: Date): int { DaysBeforeYear(d.year) + DaysBeforeMonth(d.year, d.month) + d.day - 1 }

  lemma DaysOfAYear(y: int)
    ensures DaysBeforeMonth(y, 12) + 31 == if Leap(y) then 366 else 365
  {
    hide Leap;
    assert DaysBeforeMonth(y, 2) == 31;
    assert DaysBeforeMonth(y, 3) == 31 + DaysIn(y, 2);
    assert DaysBeforeMonth(y, 5) == DaysBeforeMonth(y, 3) + 61;
    assert DaysBeforeMonth(y, 7) == DaysBeforeMonth(y, 5) + 61;
    assert DaysBeforeMonth(y, 9) == DaysBeforeMonth(y, 7) + 62;
    assert DaysBeforeMonth(y, 11) == DaysBeforeMonth(y, 9) + 61;
    assert DaysBeforeMonth(y, 12) == DaysBeforeMonth(y, 11) + 30;
  }

  lemma TomorrowCountsOne(d: Date)
    requires Valid(d) && d.year >= 1970
    ensures Valid(Tomorrow(d)) && Tomorrow(d).year >= 1970
    ensures DayNumber(Tomorrow(d)) == DayNumber(d) + 1
  {
    hide Leap;
    DaysOfAYear(d.year);
  }

  lemma {:induction false} CountedCounts(days: nat)
    ensures Valid(Counted(days)) && Counted(days).year >= 1970 && DayNumber(Counted(days)) == days
  {
    hide Valid, DayNumber, Tomorrow;
    if days == 0 {
      TheFirstDayCounts();
    } else {
      CountedCounts(days - 1);
      TomorrowCountsOne(Counted(days - 1));
    }
  }

  lemma TheFirstDayCounts()
    ensures Valid(Date(1970, 1, 1)) && DayNumber(Date(1970, 1, 1)) == 0
  {
  }

  function Yesterday(d: Date): Date {
    if d.day > 1 then d.(day := d.day - 1)
    else if d.month > 1 then Date(d.year, d.month - 1, DaysIn(d.year, d.month - 1))
    else Date(d.year - 1, 12, 31)
  }

  lemma YesterdayIsBefore(d: Date)
    requires Valid(d) && d.year >= 1970 && d != Date(1970, 1, 1)
    ensures Valid(Yesterday(d)) && Yesterday(d).year >= 1970 && Tomorrow(Yesterday(d)) == d
  {
  }

  lemma {:induction false} DaysBeforeYearIsNatural(y: int)
    ensures DaysBeforeYear(y) >= 0
    decreases y
  {
    if y > 1970 {
      DaysBeforeYearIsNatural(y - 1);
    }
  }

  lemma {:induction false} DaysBeforeMonthIsNatural(y: int, m: int)
    ensures DaysBeforeMonth(y, m) >= 0
    decreases m
  {
    if m > 1 {
      DaysBeforeMonthIsNatural(y, m - 1);
    }
  }

  lemma DayNumberIsNatural(d: Date)
    requires d.day >= 1
    ensures DayNumber(d) >= 0
  {
    DaysBeforeYearIsNatural(d.year);
    DaysBeforeMonthIsNatural(d.year, d.month);
  }

  lemma {:induction false} EveryDateIsCounted(d: Date)
    requires Valid(d) && d.year >= 1970
    ensures DayNumber(d) >= 0 && Counted(DayNumber(d)) == d
    decreases DayNumber(d)
  {
    hide Valid, Tomorrow, DayNumber;
    if d == Date(1970, 1, 1) {
      TheFirstDayCounts();
    } else {
      YesterdayIsBefore(d);
      TomorrowCountsOne(Yesterday(d));
      ValidDay(Yesterday(d));
      DayNumberIsNatural(Yesterday(d));
      EveryDateIsCounted(Yesterday(d));
    }
  }

  lemma ValidDay(d: Date)
    requires Valid(d)
    ensures d.day >= 1
  {
  }

  /** The chain undoes the count of the days, and the count the chain: the days
      from 0 and the dates from 1970-01-01 are one to one. */
  lemma DaysAndDatesAreOneToOne(days: nat, d: Date)
    ensures DayNumber(DateOf(days)) == days
    ensures Valid(d) && d.year >= 1970 ==> DayNumber(d) >= 0 && DateOf(DayNumber(d)) == d
  {
    hide DayNumber, DateOf, Valid;
    EveryDayIsCounted(days);
    CountedCounts(days);
    if Valid(d) && d.year >= 1970 {
      EveryDateIsCounted(d);
      EveryDayIsCounted(DayNumber(d));
    }
  }

  /** No step of the chain leaves 64 bits, for every 64-bit count of seconds,
      and each is in the range its name says. */
  lemma EveryStepIsInRange(secs: nat)
    requires secs < 0x1_0000_0000_0000_0000
    ensures var z := secs / 86400 + 719468;
      var era, doe := z / 146097, z % 146097;
      && 0 <= z < 0x8000_0000_0000_0000 && 0 <= era * 400 + 400 < 0x8000_0000_0000_0000
      && 0 <= Yoe(doe) <= 399 && 0 <= Doy(doe) <= 365 && 0 <= (5 * Doy(doe) + 2) / 153 <= 11
  {
    hide Yoe, Doy;
    var z := secs / 86400 + 719468;
    var p := PlaceOf(z);
    TheChainFindsThePlace(p);
    EraFound(z, p.era, DoeOf(p));
    assert z <= 0x1_0000_0000_0000_0000 + 719468;
    assert secs / 86400 <= 0x1_0000_0000_0000_0000 / 86400;
  }

  // ---- The text ----

  function Zeros(n: nat): (s: string)
    ensures |s| == n && forall k :: 0 <= k < n ==> s[k] == '0'
  {
    seq(n, _ => '0')
  }

  /** {n:0width}: n in decimal, zeros before it to the width. */
  function Padded(n: nat, width: nat): (s: string)
    ensures |s| >= width
  {
    var d := Decimal(n);
    if |d| < width then Zeros(width - |d|) + d else d
  }

  function Natural(n: int): nat { if n < 0 then 0 else n }

  /** The time secs seconds after 1970-01-01T00:00:00Z. */
  function Utc(secs: nat): string {
    var d, rem := DateOf(secs / 86400), secs % 86400;
    Padded(Natural(d.year), 4) + "-" + Padded(Natural(d.month), 2) + "-" + Padded(Natural(d.day), 2) + "T"
    + Padded(rem / 3600, 2) + ":" + Padded(rem % 3600 / 60, 2) + ":" + Padded(rem % 60, 2) + "Z"
  }

  predicate Digits(s: string) { forall k :: 0 <= k < |s| ==> IsDigit(s[k]) }

  function Power10(n: nat): nat { if n == 0 then 1 else 10 * Power10(n - 1) }

  lemma {:induction false} DecimalFits(n: nat, width: nat)
    requires width > 0 && n < Power10(width)
    ensures |Decimal(n)| <= width
  {
    if width > 1 && n >= 10 {
      DecimalFits(n / 10, width - 1);
    }
  }

  lemma {:induction false} ZerosDoNotCount(s: string, n: nat)
    requires Digits(s)
    ensures Digits(Zeros(n) + s) && Value(Zeros(n) + s) == Value(s)
    decreases |s|, n
  {
    if s != "" {
      var t := Zeros(n) + s;
      assert t[..|t| - 1] == Zeros(n) + s[..|s| - 1];
      ZerosDoNotCount(s[..|s| - 1], n);
    } else if n > 0 {
      assert (Zeros(n) + s)[..n - 1] == Zeros(n - 1) + s;
      ZerosDoNotCount(s, n - 1);
    }
  }

  lemma PaddedReads(n: nat, width: nat)
    requires width > 0 && n < Power10(width)
    ensures |Padded(n, width)| == width && Digits(Padded(n, width)) && Value(Padded(n, width)) == n
  {
    hide Decimal, Value, Power10;
    DecimalFits(n, width);
    DecimalReads(n);
    ZerosDoNotCount(Decimal(n), width - |Decimal(n)|);
  }

  /** YYYY-MM-DDTHH:MM:SSZ, as section 5.6 of RFC 3339 has a date-time. */
  predicate Rfc3339(s: string) {
    && |s| == 20 && s[4] == '-' && s[7] == '-' && s[10] == 'T' && s[13] == ':' && s[16] == ':' && s[19] == 'Z'
    && Digits(s[0..4]) && Digits(s[5..7]) && Digits(s[8..10]) && Digits(s[11..13]) && Digits(s[14..16])
    && Digits(s[17..19])
  }

  /** The seconds a text of that form stands for. */
  function Seconds(s: string): int
    requires Rfc3339(s)
  {
    86400 * DayNumber(Date(Value(s[0..4]), Value(s[5..7]), Value(s[8..10])))
    + 3600 * Value(s[11..13]) + 60 * Value(s[14..16]) + Value(s[17..19])
  }

  /** To the year 9999 the text is of that form, names a date and a time of day
      that there are, and stands for the seconds it was made from. */
  lemma TheTextStandsForTheTime(secs: nat)
    requires DateOf(secs / 86400).year <= 9999
    ensures Rfc3339(Utc(secs)) && Seconds(Utc(secs)) == secs
    ensures var s := Utc(secs);
      Valid(Date(Value(s[0..4]), Value(s[5..7]), Value(s[8..10])))
      && Value(s[11..13]) < 24 && Value(s[14..16]) < 60 && Value(s[17..19]) < 60
  {
    hide DayNumber, DateOf, Padded, Value, Valid, Counted;
    var days, rem := secs / 86400, secs % 86400;
    var d := DateOf(days);
    EveryDayIsCounted(days);
    CountedCounts(days);
    ValidBounds(d);
    assert Power10(2) == 100 && Power10(4) == 10000;
    PaddedReads(d.year, 4);
    PaddedReads(d.month, 2);
    PaddedReads(d.day, 2);
    PaddedReads(rem / 3600, 2);
    PaddedReads(rem % 3600 / 60, 2);
    PaddedReads(rem % 60, 2);
    FieldsOf(Padded(d.year, 4), Padded(d.month, 2), Padded(d.day, 2),
             Padded(rem / 3600, 2), Padded(rem % 3600 / 60, 2), Padded(rem % 60, 2));
    TimeOfDay(rem);
    DaysAndDatesAreOneToOne(days, d);
  }

  lemma ValidBounds(d: Date)
    requires Valid(d)
    ensures 1 <= d.month <= 12 && 1 <= d.day <= 31
  {
  }

  lemma TimeOfDay(rem: nat)
    requires rem < 86400
    ensures rem / 3600 < 24 && rem % 3600 / 60 < 60 && 3600 * (rem / 3600) + 60 * (rem % 3600 / 60) + rem % 60 == rem
  {
  }

  lemma FieldsOf(y: string, m: string, d: string, h: string, n: string, c: string)
    requires |y| == 4 && |m| == |d| == |h| == |n| == |c| == 2
    ensures var s := y + "-" + m + "-" + d + "T" + h + ":" + n + ":" + c + "Z";
      && |s| == 20 && s[4] == '-' && s[7] == '-' && s[10] == 'T' && s[13] == ':' && s[16] == ':' && s[19] == 'Z'
      && s[0..4] == y && s[5..7] == m && s[8..10] == d && s[11..13] == h && s[14..16] == n && s[17..19] == c
  {
    var s := y + "-" + m + "-" + d + "T" + h + ":" + n + ":" + c + "Z";
    var seven, ten := y + "-" + m, y + "-" + m + "-" + d;
    var thirteen, sixteen := ten + "T" + h, ten + "T" + h + ":" + n;
    assert s[..4] == y;
    assert s[..7] == seven && seven[5..7] == m;
    assert s[..10] == ten && ten[8..10] == d;
    assert s[..13] == thirteen && thirteen[11..13] == h;
    assert s[..16] == sixteen && sixteen[14..16] == n;
    assert s[..19] == sixteen + ":" + c;
    assert s[5..7] == s[..7][5..7] && s[8..10] == s[..10][8..10] && s[11..13] == s[..13][11..13];
    assert s[14..16] == s[..16][14..16] && s[17..19] == s[..19][17..19];
  }
}
