/** Calendar dates in the YYYY-MM-DD form of section 5.6 of RFC 3339, and why comparing them as text
    compares them as days. */
module Dates {
  import opened Text

  datatype Date = Date(year: int, month: int, day: int)

  predicate Leap(y: int) { (y % 4 == 0 && y % 100 != 0) || y % 400 == 0 }

  function DaysIn(y: int, m: int): (n: int)
    ensures 28 <= n <= 31
  {
    if m == 2 then (if Leap(y) then 29 else 28)
    else if m == 4 || m == 6 || m == 9 || m == 11 then 30
    else 31
  }

  /** A date with a four-digit year. */
  predicate Valid(d: Date)
  {
    1000 <= d.year <= 9999 && 1 <= d.month <= 12 && 1 <= d.day <= DaysIn(d.year, d.month)
  }

  function Padded(n: nat, width: nat): (t: string)
    ensures |t| == width
  {
    if width == 0 then "" else Padded(n / 10, width - 1) + [Digit(n % 10)]
  }

  /** boost::gregorian::to_iso_extended_string. */
  function Iso(d: Date): string
    requires Valid(d)
  {
    Padded(d.year, 4) + ("-" + (Padded(d.month, 2) + ("-" + Padded(d.day, 2))))
  }

  lemma {:induction false} PaddedShape(n: nat, width: nat)
    requires n < Pow10(width)
    ensures AllDigits(Padded(n, width)) && Value(Padded(n, width)) == n
    decreases width
  {
    if width > 0 {
      PaddedShape(n / 10, width - 1);
      var t := Padded(n, width);
      assert t[..|t| - 1] == Padded(n / 10, width - 1);
    }
  }

  /** Year, month and day stand in the text at their places, with dashes between them. */
  lemma IsoShape(d: Date)
    requires Valid(d)
    ensures var t := Iso(d);
            && |t| == 10 && t[4] == '-' && t[7] == '-'
            && AllDigits(t[..4]) && Value(t[..4]) == d.year
            && AllDigits(t[5..7]) && Value(t[5..7]) == d.month
            && AllDigits(t[8..]) && Value(t[8..]) == d.day
  {
    assert Pow10(2) == 100 && Pow10(4) == 10000;
    PaddedShape(d.year, 4);
    PaddedShape(d.month, 2);
    PaddedShape(d.day, 2);
    hide Padded, Value, AllDigits;
    var t := Iso(d);
    assert t[..4] == Padded(d.year, 4) && t[5..7] == Padded(d.month, 2) && t[8..] == Padded(d.day, 2);
  }

  function NextDay(d: Date): Date
  {
    if d.day < DaysIn(d.year, d.month) then d.(day := d.day + 1)
    else if d.month < 12 then Date(d.year, d.month + 1, 1)
    else Date(d.year + 1, 1, 1)
  }

  function AddDays(d: Date, k: nat): Date
    decreases k
  {
    if k == 0 then d else AddDays(NextDay(d), k - 1)
  }

  function Rank(d: Date): int { d.year * 372 + d.month * 31 + d.day }

  lemma {:induction false} PaddedOrder(a: nat, b: nat, width: nat, s: string, t: string)
    requires a < Pow10(width) && b < Pow10(width)
    ensures Le(Padded(a, width) + s, Padded(b, width) + t) <==> a < b || (a == b && Le(s, t))
    decreases width
  {
    if width == 0 {
      assert "" + s == s && "" + t == t;
    } else {
      var p, q := [Digit(a % 10)], [Digit(b % 10)];
      PaddedOrder(a / 10, b / 10, width - 1, p + s, q + t);
      assert Padded(a, width) + s == Padded(a / 10, width - 1) + (p + s);
      assert Padded(b, width) + t == Padded(b / 10, width - 1) + (q + t);
      assert (p + s)[1..] == s && (q + t)[1..] == t;
      assert Le(p + s, q + t) <==> a % 10 < b % 10 || (a % 10 == b % 10 && Le(s, t));
    }
  }

  lemma DashOrder(s: string, t: string)
    ensures Le("-" + s, "-" + t) <==> Le(s, t)
  {
    assert ("-" + s)[1..] == s && ("-" + t)[1..] == t;
  }

  lemma IsoOrder(a: Date, b: Date)
    requires Valid(a) && Valid(b)
    ensures Le(Iso(a), Iso(b)) <==> Rank(a) <= Rank(b)
  {
    hide Le, Padded;
    assert Pow10(2) == 100 && Pow10(4) == 10000;
    var da, db := Padded(a.day, 2), Padded(b.day, 2);
    var ma, mb := Padded(a.month, 2) + ("-" + da), Padded(b.month, 2) + ("-" + db);
    PaddedOrder(a.day, b.day, 2, "", "");
    assert da + "" == da && db + "" == db;
    LeRefl("");
    DashOrder(da, db);
    PaddedOrder(a.month, b.month, 2, "-" + da, "-" + db);
    DashOrder(ma, mb);
    PaddedOrder(a.year, b.year, 4, "-" + ma, "-" + mb);
  }

  lemma NextDayRank(d: Date)
    requires Valid(d)
    ensures Rank(d) < Rank(NextDay(d))
    ensures NextDay(d).year <= 9999 ==> Valid(NextDay(d))
    ensures forall e :: Valid(e) && Rank(d) < Rank(e) ==> Rank(NextDay(d)) <= Rank(e)
  {
    hide DaysIn;
  }

  lemma RankIsDate(a: Date, b: Date)
    requires Valid(a) && Valid(b) && Rank(a) == Rank(b)
    ensures a == b
  {
    hide DaysIn;
    assert a.year == b.year;
    assert a.month == b.month;
  }

  lemma NotTheLast(a: Date, b: Date)
    requires Valid(a) && Valid(b) && Rank(a) < Rank(b)
    ensures Valid(NextDay(a)) && Rank(a) < Rank(NextDay(a)) <= Rank(b)
  {
    NextDayRank(a);
    hide DaysIn, NextDay;
  }

  lemma AddDaysFirst(d: Date, k: nat)
    ensures AddDays(d, 0) == d && AddDays(d, k + 1) == AddDays(NextDay(d), k)
  {
    hide NextDay;
  }

  lemma {:induction false} Reaches(a: Date, b: Date) returns (k: nat)
    requires Valid(a) && Valid(b) && Rank(a) <= Rank(b)
    ensures AddDays(a, k) == b
    decreases Rank(b) - Rank(a)
  {
    hide *;
    if Rank(a) == Rank(b) {
      RankIsDate(a, b);
      AddDaysFirst(a, 0);
      return 0;
    }
    NotTheLast(a, b);
    var n := Reaches(NextDay(a), b);
    AddDaysFirst(a, n);
    k := n + 1;
  }

  lemma {:induction false} AddDaysRank(a: Date, k: nat)
    requires Valid(a) && Valid(AddDays(a, k))
    ensures Rank(a) <= Rank(AddDays(a, k))
    decreases k
  {
    if k > 0 {
      NextDayRank(a);
      if NextDay(a).year > 9999 {
        YearsGrow(NextDay(a), k - 1);
      } else {
        AddDaysRank(NextDay(a), k - 1);
      }
    }
  }

  lemma {:induction false} YearsGrow(a: Date, k: nat)
    ensures AddDays(a, k).year >= a.year
    decreases k
  {
    if k > 0 { YearsGrow(NextDay(a), k - 1); }
  }

  /** One date's text is not after another's exactly when the second day is reached from the first by
      letting days pass. */
  lemma TextOrderIsCalendarOrder(a: Date, b: Date)
    requires Valid(a) && Valid(b)
    ensures Le(Iso(a), Iso(b)) <==> exists k: nat :: AddDays(a, k) == b
  {
    IsoOrder(a, b);
    if Rank(a) <= Rank(b) {
      var k := Reaches(a, b);
    }
    if k: nat :| AddDays(a, k) == b {
      AddDaysRank(a, k);
    }
  }

  // ----- days counted -----

  /** The days of a year, counted from March, before the month m. */
  function Before(m: int): int { (153 * ((m + 9) % 12) + 2) / 5 }

  /** The number of a day in the Gregorian calendar. */
  function DayNumber(d: Date): int
  {
    var y := if d.month <= 2 then d.year - 1 else d.year;
    365 * y + Leaps(y) + Before(d.month) + d.day
  }

  lemma MonthDays(y: int, m: int)
    requires 1 <= m <= 12
    ensures m != 2 ==> Before(if m == 12 then 1 else m + 1) == Before(m) + DaysIn(y, m)
    ensures m == 2 ==> Before(3) + 365 + (if Leap(y) then 1 else 0) == Before(2) + DaysIn(y, 2)
  {
  }

  function Fours(y: int): int { y / 4 }
  function Hundreds(y: int): int { y / 100 }
  function FourHundreds(y: int): int { y / 400 }

  /** The number of leap years up to y. */
  function Leaps(y: int): int { Fours(y) - Hundreds(y) + FourHundreds(y) }

  lemma LeapDays(y: int)
    ensures Leaps(y) == Leaps(y - 1) + (if Leap(y) then 1 else 0)
  {
    hide Fours, Hundreds, FourHundreds, Leap, Divides;
    FoursStep(y);
    HundredsStep(y);
    FourHundredsStep(y);
    LeapIs(y);
  }

  predicate Divides(n: int, y: int)
    requires n != 0
  {
    y % n == 0
  }

  lemma FoursStep(y: int)
    ensures Fours(y) == Fours(y - 1) + (if Divides(4, y) then 1 else 0)
  {
  }

  lemma HundredsStep(y: int)
    ensures Hundreds(y) == Hundreds(y - 1) + (if Divides(100, y) then 1 else 0)
  {
  }

  lemma FourHundredsStep(y: int)
    ensures FourHundreds(y) == FourHundreds(y - 1) + (if Divides(400, y) then 1 else 0)
  {
  }

  lemma LeapIs(y: int)
    ensures Leap(y) <==> (Divides(4, y) && !Divides(100, y)) || Divides(400, y)
    ensures Divides(400, y) ==> Divides(100, y)
    ensures Divides(100, y) ==> Divides(4, y)
  {
    Multiples(y, 100, 4);
    Multiples(y, 4, 25);
  }

  lemma Multiples(y: int, n: int, k: int)
    requires (n, k) in {(100, 4), (4, 25)}
    ensures Divides(n * k, y) ==> Divides(n, y)
  {
    if Divides(n * k, y) {
      var q := y / (n * k);
      if n == 100 { assert y == 100 * (4 * q); } else { assert y == 4 * (25 * q); }
    }
  }

  /** The next day has the next number. */
  lemma NextDayNumber(d: Date)
    requires Valid(d)
    ensures DayNumber(NextDay(d)) == DayNumber(d) + 1
  {
    hide Leap, Leaps, Before, DaysIn;
    if d.day == DaysIn(d.year, d.month) {
      MonthDays(d.year, d.month);
      if d.month == 2 { LeapDays(d.year); }
      hide NextDay;
      NextMonth(d);
    }
  }

  lemma NextMonth(d: Date)
    requires Valid(d) && d.day == DaysIn(d.year, d.month)
    ensures NextDay(d) == if d.month < 12 then Date(d.year, d.month + 1, 1) else Date(d.year + 1, 1, 1)
  {
  }

  lemma {:induction false} AddDaysNumber(a: Date, k: nat)
    requires Valid(a) && Valid(AddDays(a, k))
    ensures DayNumber(AddDays(a, k)) == DayNumber(a) + k
    decreases k
  {
    hide DayNumber, DaysIn;
    if k > 0 {
      NextDayRank(a);
      NextDayNumber(a);
      if NextDay(a).year > 9999 {
        YearsGrow(NextDay(a), k - 1);
      } else {
        AddDaysNumber(NextDay(a), k - 1);
      }
    }
  }

  /** Days pass one at a time: b is reached from a by letting k days pass exactly if their numbers differ by k. */
  lemma DaysApart(a: Date, b: Date, k: nat)
    requires Valid(a) && Valid(b)
    ensures AddDays(a, k) == b <==> DayNumber(b) - DayNumber(a) == k
  {
    hide DayNumber, AddDays, Valid;
    if AddDays(a, k) == b { AddDaysNumber(a, k); }
    if DayNumber(b) - DayNumber(a) == k {
      if Rank(a) <= Rank(b) {
        var n := Reaches(a, b);
        AddDaysNumber(a, n);
      } else {
        var n := Reaches(b, a);
        AddDaysNumber(b, n);
        AddDaysFirst(b, 0);
      }
    }
  }
}
