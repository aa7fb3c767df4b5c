/** Object keys (internal/ship/key.go): raw/<machine>/<Y>/<M>/<D>/<H>/<machine>-<unix>-<uuid>.jsonl,
  and the calendar their date parts come from. */
module UploadKey {
  import opened Lex

  // ----- decimal text -----

  function Digit(d: nat): char
    requires d < 10
  {
    '0' + d as char
  }

  function Dec(n: nat): (s: string)
    ensures s != "" && AllDigits(s) && Val(s) == n
  {
    if n < 10 then
      var s := [Digit(n)];
      assert s[..0] == "" && Val("") == 0;
      s
    else
      var q := Dec(n / 10);
      var s := q + [Digit(n % 10)];
      assert s[..|s| - 1] == q;
      s
  }

  predicate IsDigit(c: char) { '0' <= c <= '9' }

  predicate AllDigits(s: string) {
    forall i :: 0 <= i < |s| ==> IsDigit(s[i])
  }

  function Val(s: string): nat
    requires AllDigits(s)
  {
    if s == "" then 0 else 10 * Val(s[..|s| - 1]) + (s[|s| - 1] - '0') as nat
  }

  function Zeros(k: nat): (s: string)
    ensures |s| == k && AllDigits(s)
  {
    if k == 0 then "" else Zeros(k - 1) + "0"
  }

  /** The %0<w>d verb on a number that is not negative. */
  function ZeroPadded(n: nat, w: nat): string {
    if |Dec(n)| >= w then Dec(n) else Zeros(w - |Dec(n)|) + Dec(n)
  }

  /** The %d verb. */
  function Signed(n: int): string {
    if n < 0 then "-" + Dec(-n) else Dec(n)
  }

  function Pow10(k: nat): (p: nat)
    ensures p > 0
  {
    if k == 0 then 1 else 10 * Pow10(k - 1)
  }

  lemma LastDigitDecides(p: nat, q: nat, x: nat, y: nat)
    requires x < 10 && y < 10
    ensures 10 * p + x < 10 * q + y <==> p < q || (p == q && x < y)
    ensures 10 * p + x == 10 * q + y <==> p == q && x == y
  {}

  /** Among equally long digit strings, string order is number order. */
  lemma {:induction false} DigitsCompare(a: string, b: string)
    requires |a| == |b| && AllDigits(a) && AllDigits(b)
    ensures Less(a, b) <==> Val(a) < Val(b)
    ensures a == b <==> Val(a) == Val(b)
  {
    if a != "" {
      var p, q := a[..|a| - 1], b[..|b| - 1];
      DigitsCompare(p, q);
      var x, y := a[|a| - 1], b[|b| - 1];
      assert a == p + [x] && b == q + [y];
      LastCharacter(p, q, x, y);
      LastDigitDecides(Val(p), Val(q), (x - '0') as nat, (y - '0') as nat);
    }
  }

  lemma {:induction false} ZerosAreZero(k: nat)
    ensures Val(Zeros(k)) == 0
  {
    if k > 0 {
      var z, rest := Zeros(k), Zeros(k - 1);
      assert z == rest + "0" && z[..k - 1] == rest && z[k - 1] == '0';
      ZerosAreZero(k - 1);
    }
  }

  lemma {:induction false} ZerosAddNothing(k: nat, s: string)
    requires AllDigits(s)
    ensures AllDigits(Zeros(k) + s) && Val(Zeros(k) + s) == Val(s)
  {
    var t := Zeros(k) + s;
    if s == "" {
      assert t == Zeros(k);
      ZerosAreZero(k);
    } else {
      var rest := s[..|s| - 1];
      assert t[..|t| - 1] == Zeros(k) + rest && t[|t| - 1] == s[|s| - 1];
      ZerosAddNothing(k, rest);
    }
  }

  lemma {:induction false} DecLength(n: nat, w: nat)
    requires w > 0
    ensures |Dec(n)| <= w <==> n < Pow10(w)
    decreases w
  {
    if n >= 10 && w > 1 {
      DecLength(n / 10, w - 1);
    } else if w > 1 {
      assert Pow10(w) == 10 * Pow10(w - 1);
      PowPositive(w - 1);
    } else {
      assert Pow10(1) == 10 * Pow10(0);
    }
  }

  lemma {:induction false} PowPositive(k: nat)
    ensures Pow10(k) >= 1
  {
    if k > 0 {
      PowPositive(k - 1);
    }
  }

  lemma {:induction false} PaddedFits(n: nat, w: nat)
    requires w > 0 && n < Pow10(w)
    ensures |ZeroPadded(n, w)| == w && AllDigits(ZeroPadded(n, w)) && Val(ZeroPadded(n, w)) == n
  {
    DecLength(n, w);
    ZerosAddNothing(if |Dec(n)| >= w then 0 else w - |Dec(n)|, Dec(n));
  }

  // ----- the calendar -----

  datatype Date = Date(y: nat, m: nat, d: nat)

  predicate Leap(y: nat) { y % 4 == 0 && (y % 100 != 0 || y % 400 == 0) }

  function DaysIn(y: nat, m: nat): nat {
    if m == 2 then (if Leap(y) then 29 else 28) else if m in {4, 6, 9, 11} then 30 else 31
  }

  function NextDay(x: Date): Date {
    if x.d < DaysIn(x.y, x.m) then x.(d := x.d + 1)
    else if x.m < 12 then Date(x.y, x.m + 1, 1)
    else Date(x.y + 1, 1, 1)
  }

  /** The proleptic Gregorian date n days after 1 January of year 0. */
  function Civil(n: nat): (x: Date)
    ensures 1 <= x.m <= 12 && 1 <= x.d <= 31
  {
    if n == 0 then Date(0, 1, 1) else NextDay(Civil(n - 1))
  }

  predicate Before(a: Date, b: Date) {
    a.y < b.y || (a.y == b.y && (a.m < b.m || (a.m == b.m && a.d < b.d)))
  }

  lemma {:induction false} CivilGrows(n: nat, k: nat)
    requires n < k
    ensures Before(Civil(n), Civil(k))
  {
    if n < k - 1 {
      CivilGrows(n, k - 1);
    }
  }

  function DaysBefore(y: nat): nat {
    if y == 0 then 0 else DaysBefore(y - 1) + (if Leap(y - 1) then 366 else 365)
  }

  lemma {:induction false} AlongMonth(n: nat, k: nat)
    requires Civil(n).d == 1 && k < DaysIn(Civil(n).y, Civil(n).m)
    ensures Civil(n + k) == Civil(n).(d := 1 + k)
  {
    if k > 0 {
      AlongMonth(n, k - 1);
    }
  }

  lemma {:induction false} NextMonth(n: nat)
    requires Civil(n).d == 1
    ensures var x := Civil(n);
            Civil(n + DaysIn(x.y, x.m)) == if x.m < 12 then Date(x.y, x.m + 1, 1) else Date(x.y + 1, 1, 1)
  {
    AlongMonth(n, DaysIn(Civil(n).y, Civil(n).m) - 1);
  }

  function DaysBeforeMonth(y: nat, m: nat): nat {
    if m <= 1 then 0 else DaysBeforeMonth(y, m - 1) + DaysIn(y, m - 1)
  }

  lemma {:induction false} MonthStart(first: nat, y: nat, m: nat)
    requires 1 <= m <= 12 && Civil(first) == Date(y, 1, 1)
    ensures Civil(first + DaysBeforeMonth(y, m)) == Date(y, m, 1)
    decreases m
  {
    if m > 1 {
      MonthStart(first, y, m - 1);
      NextMonth(first + DaysBeforeMonth(y, m - 1));
    }
  }

  lemma NextYear(first: nat, y: nat)
    requires Civil(first) == Date(y, 1, 1)
    ensures Civil(first + if Leap(y) then 366 else 365) == Date(y + 1, 1, 1)
  {
    MonthStart(first, y, 12);
    NextMonth(first + DaysBeforeMonth(y, 12));
    YearLength(y);
  }

  lemma {:induction false} YearStart(y: nat)
    ensures Civil(DaysBefore(y)) == Date(y, 1, 1)
  {
    if y > 0 {
      YearStart(y - 1);
      NextYear(DaysBefore(y - 1), y - 1);
    }
  }

  lemma YearLength(y: nat)
    ensures DaysBeforeMonth(y, 12) + 31 == if Leap(y) then 366 else 365
  {
    calc {
      DaysBeforeMonth(y, 12);
      DaysBeforeMonth(y, 11) + 30;
      DaysBeforeMonth(y, 10) + 61;
      DaysBeforeMonth(y, 9) + 91;
      DaysBeforeMonth(y, 8) + 122;
      DaysBeforeMonth(y, 7) + 153;
      DaysBeforeMonth(y, 6) + 183;
      DaysBeforeMonth(y, 5) + 214;
      DaysBeforeMonth(y, 4) + 244;
      DaysBeforeMonth(y, 3) + 275;
      DaysBeforeMonth(y, 2) + 275 + DaysIn(y, 2);
      306 + DaysIn(y, 2);
    }
  }

  lemma CeilStep(y: nat)
    requires y > 0
    ensures (y + 3) / 4 == (y + 2) / 4 + if (y - 1) % 4 == 0 then 1 else 0
    ensures (y + 99) / 100 == (y + 98) / 100 + if (y - 1) % 100 == 0 then 1 else 0
    ensures (y + 399) / 400 == (y + 398) / 400 + if (y - 1) % 400 == 0 then 1 else 0
  {}

  lemma LeapCount(x: nat)
    ensures (if Leap(x) then 1 else 0)
            == (if x % 4 == 0 then 1 else 0) - (if x % 100 == 0 then 1 else 0) + (if x % 400 == 0 then 1 else 0)
  {
    if x % 100 == 0 {
      MultipleOf(x / 100, 25, 4);
    }
    if x % 400 == 0 {
      MultipleOf(x / 400, 4, 100);
    }
  }

  lemma MultipleOf(q: nat, f: nat, k: nat)
    requires (f == 25 && k == 4) || (f == 4 && k == 100)
    ensures (q * (f * k)) % k == 0
  {
    if f == 25 {
      assert q * 100 == 4 * (25 * q);
    } else {
      assert q * 400 == 100 * (4 * q);
    }
  }

  lemma {:induction false} FourCenturies(y: nat)
    ensures DaysBefore(y) == 365 * y + (y + 3) / 4 - (y + 99) / 100 + (y + 399) / 400
  {
    if y > 0 {
      FourCenturies(y - 1);
      LeapCount(y - 1);
      CeilStep(y);
    }
  }

  const EPOCH_DAY: nat := 719528

  /** EPOCH_DAY is the right constant: it counts the days before 1 January 1970. */
  lemma {:induction false} EpochIs1970(y: nat)
    requires y == 1970
    ensures DaysBefore(y) == EPOCH_DAY && Civil(DaysBefore(y)) == Date(y, 1, 1)
  {
    FourCenturies(y);
    YearStart(y);
    assert 365 * y == 719050 && (y + 3) / 4 == 493 && (y + 99) / 100 == 20 && (y + 399) / 400 == 5;
  }

  // ----- keys -----

  /** The day, from year 0, and the hour of a Unix time. */
  function DayOf(t: int): int {
    t / 3600 / 24 + EPOCH_DAY
  }

  function HourOf(t: int): (k: nat)
    ensures k < 24
  {
    t / 3600 % 24
  }

  /** Unix seconds that fall in the years 0 to 9999. */
  predicate InRange(t: int) {
    0 <= DayOf(t) && Civil(DayOf(t)).y <= 9999
  }

  lemma {:induction false} YearBelow(n: nat, y: nat)
    ensures Civil(n).y < y <==> n < DaysBefore(y)
  {
    YearStart(y);
    if n < DaysBefore(y) {
      CivilGrows(n, DaysBefore(y));
    } else if n > DaysBefore(y) {
      CivilGrows(DaysBefore(y), n);
    }
  }

  lemma DaysBelow10000(y: nat)
    requires y == 10000
    ensures DaysBefore(y) == 3_652_425
  {
    FourCenturies(y);
  }

  /** In seconds: from 1 January of year 0 to the end of year 9999. */
  lemma {:induction false} RangeInSeconds(t: int)
    ensures InRange(t) <==> -62_167_219_200 <= t < 253_402_300_800
  {
    var y: nat := 10000;
    DaysBelow10000(y);
    if DayOf(t) >= 0 {
      YearBelow(DayOf(t), y);
    }
  }

  function Field(f: string, rest: string): string {
    f + ("/" + rest)
  }

  function DatePath(x: Date, hour: nat): string {
    Field(ZeroPadded(x.y, 4), Field(ZeroPadded(x.m, 2), Field(ZeroPadded(x.d, 2), Field(ZeroPadded(hour, 2), ""))))
  }

  function Tail(machine: string, t: int, uuid: string): string {
    (machine + "-") + (Signed(t) + ("-" + uuid + ".jsonl"))
  }

  function PathAt(t: int): string
    requires InRange(t)
  {
    DatePath(Civil(DayOf(t)), HourOf(t))
  }

  function FormatKey(machine: string, t: int, uuid: string): string
    requires InRange(t)
  {
    ("raw/" + machine + "/") + (PathAt(t) + Tail(machine, t, uuid))
  }

  /** The first differing field decides. */
  lemma {:induction false} FieldsCompare(f1: string, f2: string, r1: string, r2: string)
    requires |f1| == |f2| && |r1| == |r2| && (Less(f1, f2) || (f1 == f2 && Less(r1, r2)))
    ensures Less(Field(f1, r1), Field(f2, r2)) && |Field(f1, r1)| == |Field(f2, r2)|
  {
    if f1 == f2 && Less(r1, r2) {
      SamePrefix("/", r1, r2);
      SamePrefix(f1, "/" + r1, "/" + r2);
    } else {
      DecidedEarly(f1, f2, "/" + r1, "/" + r2);
    }
  }

  lemma {:induction false} PaddedCompare(a: nat, b: nat, w: nat)
    requires w > 0 && a < Pow10(w) && b < Pow10(w)
    ensures |ZeroPadded(a, w)| == |ZeroPadded(b, w)|
    ensures Less(ZeroPadded(a, w), ZeroPadded(b, w)) <==> a < b
  {
    PaddedFits(a, w);
    PaddedFits(b, w);
    DigitsCompare(ZeroPadded(a, w), ZeroPadded(b, w));
  }

  lemma {:induction false} PathsCompare(a: Date, h: nat, b: Date, k: nat)
    requires a.y <= 9999 && b.y <= 9999 && a.m <= 12 && b.m <= 12 && a.d <= 31 && b.d <= 31 && h < 24 && k < 24
    requires Before(a, b) || (a == b && h < k)
    ensures |DatePath(a, h)| == |DatePath(b, k)| && Less(DatePath(a, h), DatePath(b, k))
  {
    PowersOfTen();
    PaddedCompare(a.y, b.y, 4);
    PaddedCompare(a.m, b.m, 2);
    PaddedCompare(a.d, b.d, 2);
    PaddedCompare(h, k, 2);
    var h1, h2 := Field(ZeroPadded(h, 2), ""), Field(ZeroPadded(k, 2), "");
    var d1, d2 := Field(ZeroPadded(a.d, 2), h1), Field(ZeroPadded(b.d, 2), h2);
    var m1, m2 := Field(ZeroPadded(a.m, 2), d1), Field(ZeroPadded(b.m, 2), d2);
    if a == b {
      FieldsCompare(ZeroPadded(h, 2), ZeroPadded(k, 2), "", "");
    }
    if a.y == b.y && a.m == b.m {
      FieldsCompare(ZeroPadded(a.d, 2), ZeroPadded(b.d, 2), h1, h2);
    }
    if a.y == b.y {
      FieldsCompare(ZeroPadded(a.m, 2), ZeroPadded(b.m, 2), d1, d2);
    }
    FieldsCompare(ZeroPadded(a.y, 4), ZeroPadded(b.y, 4), m1, m2);
  }

  lemma PowersOfTen()
    ensures Pow10(2) == 100 && Pow10(4) == 10000
    ensures Pow10(9) == 1_000_000_000 && Pow10(10) == 10_000_000_000
  {
    assert Pow10(5) == 100000 && Pow10(7) == 10000000;
  }

  lemma HourParts(h1: int, h2: int)
    requires h1 < h2
    ensures h1 / 24 < h2 / 24 || (h1 / 24 == h2 / 24 && h1 % 24 < h2 % 24)
  {}

  lemma {:induction false} DaysComparePaths(n1: nat, k1: nat, n2: nat, k2: nat)
    requires (n1 < n2 || (n1 == n2 && k1 < k2)) && k1 < 24 && k2 < 24
    requires Civil(n1).y <= 9999 && Civil(n2).y <= 9999
    ensures |DatePath(Civil(n1), k1)| == |DatePath(Civil(n2), k2)|
    ensures Less(DatePath(Civil(n1), k1), DatePath(Civil(n2), k2))
  {
    var a, b := Civil(n1), Civil(n2);
    if n1 < n2 {
      CivilGrows(n1, n2);
    }
    PathsCompare(a, k1, b, k2);
  }

  lemma {:induction false} PathDecides(head: string, p1: string, p2: string, x: string, y: string)
    requires |p1| == |p2| && Less(p1, p2)
    ensures Less(head + (p1 + x), head + (p2 + y))
  {
    DecidedEarly(p1, p2, x, y);
    SamePrefix(head, p1 + x, p2 + y);
  }

  lemma PartsGrow(t1: int, t2: int)
    requires t1 / 3600 < t2 / 3600
    ensures DayOf(t1) < DayOf(t2) || (DayOf(t1) == DayOf(t2) && HourOf(t1) < HourOf(t2))
  {
    HourParts(t1 / 3600, t2 / 3600);
  }

  lemma {:induction false} HourPathsCompare(t1: int, t2: int)
    requires InRange(t1) && InRange(t2) && t1 / 3600 < t2 / 3600
    ensures |PathAt(t1)| == |PathAt(t2)| && Less(PathAt(t1), PathAt(t2))
  {
    PartsGrow(t1, t2);
    DaysComparePaths(DayOf(t1), HourOf(t1), DayOf(t2), HourOf(t2));
  }

  /** Different hours always sort by time. */
  lemma {:induction false} HoursSort(machine: string, t1: int, t2: int, u1: string, u2: string)
    requires InRange(t1) && InRange(t2) && t1 / 3600 < t2 / 3600
    ensures Less(FormatKey(machine, t1, u1), FormatKey(machine, t2, u2))
  {
    HourPathsCompare(t1, t2);
    PathDecides("raw/" + machine + "/", PathAt(t1), PathAt(t2), Tail(machine, t1, u1), Tail(machine, t2, u2));
  }

  lemma {:induction false} TailsCompare(machine: string, p: string, x: string, y: string)
    ensures Less(("raw/" + machine + "/") + (p + ((machine + "-") + x)),
                 ("raw/" + machine + "/") + (p + ((machine + "-") + y)))
            <==> Less(x, y)
  {
    SamePrefix("raw/" + machine + "/", p + ((machine + "-") + x), p + ((machine + "-") + y));
    SamePrefix(p, (machine + "-") + x, (machine + "-") + y);
    SamePrefix(machine + "-", x, y);
  }

  /** Within one hour the printed seconds decide, then the UUID. */
  lemma {:induction false} SameHourCompares(machine: string, t1: int, t2: int, u1: string, u2: string)
    requires InRange(t1) && InRange(t2) && t1 / 3600 == t2 / 3600
    ensures Less(FormatKey(machine, t1, u1), FormatKey(machine, t2, u2))
            <==> Less(Signed(t1) + ("-" + u1 + ".jsonl"), Signed(t2) + ("-" + u2 + ".jsonl"))
  {
    var p := PathAt(t1);
    assert p == PathAt(t2);
    var x, y := Signed(t1) + ("-" + u1 + ".jsonl"), Signed(t2) + ("-" + u2 + ".jsonl");
    TailsCompare(machine, p, x, y);
  }

  /** A strictly later upload second gives a greater key, whatever the UUIDs,
    exactly when the seconds lie in different hours or not before 1970; within
    one hour they are taken to have as many digits. */
  lemma {:induction false} KeysSortByTime(machine: string, t1: int, t2: int, u1: string, u2: string)
    requires InRange(t1) && InRange(t2) && t1 < t2
    requires t1 / 3600 == t2 / 3600 ==> |Signed(t1)| == |Signed(t2)|
    ensures Less(FormatKey(machine, t1, u1), FormatKey(machine, t2, u2)) <==> t1 / 3600 < t2 / 3600 || 0 <= t1
  {
    if t1 / 3600 < t2 / 3600 {
      HoursSort(machine, t1, t2, u1, u2);
    } else {
      SameHourCompares(machine, t1, t2, u1, u2);
      SecondsDecide(t1, t2, "-" + u1 + ".jsonl", "-" + u2 + ".jsonl");
    }
  }

  /** Equally long printed seconds of one hour. */
  lemma {:induction false} SecondsDecide(t1: int, t2: int, x: string, y: string)
    requires t1 < t2 && t1 / 3600 == t2 / 3600 && |Signed(t1)| == |Signed(t2)|
    ensures Less(Signed(t1) + x, Signed(t2) + y) <==> 0 <= t1
  {
    if 0 <= t1 {
      DigitsCompare(Dec(t1), Dec(t2));
      DecidedEarly(Dec(t1), Dec(t2), x, y);
    } else {
      NegativeReverses(t1, t2, x, y);
    }
  }

  /** A minus sign turns the order of the digits around. */
  lemma {:induction false} NegativeReverses(t1: int, t2: int, x: string, y: string)
    requires t1 < t2 < 0 && |Signed(t1)| == |Signed(t2)|
    ensures !Less(Signed(t1) + x, Signed(t2) + y)
  {
    DigitsCompare(Dec(-t2), Dec(-t1));
    DecidedEarly(Dec(-t2), Dec(-t1), y, x);
    assert Signed(t1) + x == "-" + (Dec(-t1) + x) && Signed(t2) + y == "-" + (Dec(-t2) + y);
    SamePrefix("-", Dec(-t1) + x, Dec(-t2) + y);
    Asymmetric(Dec(-t2) + y, Dec(-t1) + x);
  }

  /** From 9 September 2001 to 20 November 2286 the digit counts are equal, so
    there is nothing left to assume. */
  lemma {:induction false} KeysSortInPractice(machine: string, t1: int, t2: int, u1: string, u2: string)
    requires 1_000_000_000 <= t1 < t2 < 10_000_000_000
    ensures InRange(t1) && InRange(t2) && Less(FormatKey(machine, t1, u1), FormatKey(machine, t2, u2))
  {
    RangeInSeconds(t1);
    RangeInSeconds(t2);
    PowersOfTen();
    DecLength(t1, 9); DecLength(t1, 10); DecLength(t2, 9); DecLength(t2, 10);
    KeysSortByTime(machine, t1, t2, u1, u2);
  }

  /** Two uploads in the same second sort by their random UUIDs, not by time. */
  lemma {:induction false} SameSecondSortsByUuid(machine: string, t: int, u1: string, u2: string)
    requires InRange(t) && |u1| == |u2| && u1 != u2
    ensures Less(FormatKey(machine, t, u1), FormatKey(machine, t, u2)) <==> Less(u1, u2)
  {
    SameHourCompares(machine, t, t, u1, u2);
    SamePrefix(Signed(t), "-" + u1 + ".jsonl", "-" + u2 + ".jsonl");
    EndingsAside(u1, u2);
  }

  lemma {:induction false} EndingsAside(u1: string, u2: string)
    requires |u1| == |u2| && u1 != u2
    ensures Less("-" + u1 + ".jsonl", "-" + u2 + ".jsonl") <==> Less(u1, u2)
  {
    assert "-" + u1 + ".jsonl" == "-" + (u1 + ".jsonl") && "-" + u2 + ".jsonl" == "-" + (u2 + ".jsonl");
    SamePrefix("-", u1 + ".jsonl", u2 + ".jsonl");
    Total(u1, u2);
    if Less(u1, u2) {
      DecidedEarly(u1, u2, ".jsonl", ".jsonl");
    } else {
      DecidedEarly(u2, u1, ".jsonl", ".jsonl");
      Asymmetric(u1 + ".jsonl", u2 + ".jsonl");
      Asymmetric(u1, u2);
    }
  }

  /** Where the digit count changes inside an hour, at 999999999 and the second
    after, the later key sorts first. */
  lemma {:induction false} DigitChangeReverses(machine: string, t1: int, t2: int, u1: string, u2: string)
    requires t1 == 999_999_999 && t2 == 1_000_000_000 && InRange(t1) && InRange(t2)
    ensures Less(FormatKey(machine, t2, u2), FormatKey(machine, t1, u1))
  {
    SameHour(t1, t2);
    FirstDigits(t1, t2);
    FirstDecides(Signed(t2), Signed(t1), "-" + u2 + ".jsonl", "-" + u1 + ".jsonl");
    SameHourCompares(machine, t2, t1, u2, u1);
  }

  lemma SameHour(t1: int, t2: int)
    requires t1 == 999_999_999 && t2 == 1_000_000_000
    ensures t1 / 3600 == t2 / 3600
  {}

  lemma FirstDecides(a: string, b: string, x: string, y: string)
    requires a != "" && b != "" && a[0] < b[0]
    ensures Less(a + x, b + y)
  {}

  lemma FirstDigits(t1: int, t2: int)
    requires t1 == 999_999_999 && t2 == 1_000_000_000
    ensures Signed(t1) != "" && Signed(t2) != "" && Signed(t2)[0] < Signed(t1)[0]
  {
    PowersOfTen();
    assert Pow10(9) == 10 * Pow10(8);
    Leading(t1, 9, 8);
    Leading(t2, 1, 9);
  }

  /** The first digit of a number of w + 1 digits. */
  lemma {:induction false} Leading(n: nat, d: nat, w: nat)
    requires 0 < d < 10 && d * Pow10(w) <= n < (d + 1) * Pow10(w)
    ensures Dec(n)[0] == Digit(d)
    decreases w
  {
    if w > 0 {
      Tenth(n, d, Pow10(w - 1));
      Leading(n / 10, d, w - 1);
    }
  }

  lemma Tenth(n: nat, d: nat, p: int)
    requires 0 < d && p > 0 && d * (10 * p) <= n < (d + 1) * (10 * p)
    ensures d * p <= n / 10 < (d + 1) * p && n >= 10
  {
    var lo, hi := d * p, (d + 1) * p;
    assert d * (10 * p) == 10 * lo && (d + 1) * (10 * p) == 10 * hi;
    AtLeast(d, p);
  }

  lemma AtLeast(d: nat, p: int)
    requires d > 0 && p > 0
    ensures d * p >= 1
  {}
}
