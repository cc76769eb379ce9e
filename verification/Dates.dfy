/**
  The date parser of avstring.c: get_word, get_mon, av_timegm and ff_strptime,
  against a calendar summed day by day.
 */
module Dates {
  import opened Bytes
  import opened Text
  import opened Wrappers

  // ------------------------------------------------------------ the calendar

  predicate Leap(y: int) { y % 4 == 0 && (y % 100 != 0 || y % 400 == 0) }

  function DaysInMonth(y: int, m: int): nat {
    if m == 2 then (if Leap(y) then 29 else 28)
    else if m == 4 || m == 6 || m == 9 || m == 11 then 30
    else 31
  }

  function DaysBeforeMonth(y: int, m: int): nat
    requires 1 <= m <= 12
  {
    if m == 1 then 0 else DaysBeforeMonth(y, m - 1) + DaysInMonth(y, m - 1)
  }

  function DaysInYear(y: int): nat {
    if Leap(y) then 366 else 365
  }

  /** Days from 1 January of the year 1 to 1 January of the year y. */
  function DaysBeforeYear(y: int): nat
    requires y >= 1
  {
    if y == 1 then 0 else DaysBeforeYear(y - 1) + DaysInYear(y - 1)
  }

  datatype Date = Date(year: int, month: int, day: int) {
    predicate Valid() {
      year >= 1 && 1 <= month <= 12 && 1 <= day <= DaysInMonth(year, month)
    }

    function DayNumber(): int
      requires Valid()
    {
      DaysBeforeYear(year) + DaysBeforeMonth(year, month) + day - 1
    }

    predicate Before(that: Date) {
      year < that.year || (year == that.year && (month < that.month || (month == that.month && day < that.day)))
    }
  }

  datatype Clock = Clock(hour: int, min: int, sec: int) {
    /** Second 60 is a leap second. */
    predicate Valid() { 0 <= hour < 24 && 0 <= min < 60 && 0 <= sec <= 60 }

    function Seconds(): int { 3600 * hour + 60 * min + sec }
  }

  // ---------------------------------------------------------------- av_timegm

  /** struct tm: months from 0, years from 1900. */
  datatype Tm = Tm(mon: int, mday: int, year: int, hour: int, min: int, sec: int)

  /** C division. */
  function Div(a: int, b: int): int
    requires b > 0
  {
    if a >= 0 then a / b else -(-a / b)
  }

  /** It drops the fraction, towards zero. */
  lemma DivTruncates(a: int, b: int)
    requires b > 0
    ensures Div(-a, b) == -Div(a, b)
    ensures a >= 0 ==> Div(a, b) >= 0 && Div(a, b) * b <= a < (Div(a, b) + 1) * b
  {}

  function TimegmOf(tm: Tm): int {
    var early := tm.mon + 1 < 3;
    var m := if early then tm.mon + 13 else tm.mon + 1;
    var y := if early then tm.year + 1899 else tm.year + 1900;
    86400 * (tm.mday + Div(153 * m - 457, 5) + 365 * y + Div(y, 4) - Div(y, 100) + Div(y, 400) - 719469)
    + 3600 * tm.hour + 60 * tm.min + tm.sec
  }

  function TmOf(d: Date, c: Clock): Tm {
    Tm(d.month - 1, d.day, d.year - 1900, c.hour, c.min, c.sec)
  }

  const EPOCH := Date(1970, 1, 1)

  /** A quotient grows by one exactly at the multiples. */
  lemma QuotientStep(n: nat, k: nat)
    requires n >= 1 && k >= 2
    ensures n / k - (n - 1) / k == if n % k == 0 then 1 else 0
  {
    var q, r := n / k, n % k;
    assert n == k * q + r;
    if r == 0 {
      assert k * (q - 1) + k == k * q;
      ModUnique(n - 1, k, q - 1, k - 1);
    } else {
      ModUnique(n - 1, k, q, r - 1);
    }
  }

  lemma MultiplesNest(n: nat, a: nat, b: nat)
    requires a >= 1 && b >= 1 && n % (a * b) == 0
    ensures n % a == 0
  {
    var q := n / (a * b);
    assert n == a * (b * q) by {
      assert n == (a * b) * q;
    }
    ModUnique(n, a, b * q, 0);
  }

  lemma {:induction false} YearsInClosedForm(y: int)
    requires y >= 1
    ensures DaysBeforeYear(y) == 365 * (y - 1) + (y - 1) / 4 - (y - 1) / 100 + (y - 1) / 400
  {
    if y > 1 {
      YearsInClosedForm(y - 1);
      QuotientStep(y - 1, 4);
      QuotientStep(y - 1, 100);
      QuotientStep(y - 1, 400);
      if (y - 1) % 100 == 0 {
        MultiplesNest(y - 1, 4, 25);
      }
      if (y - 1) % 400 == 0 {
        MultiplesNest(y - 1, 100, 4);
      }
    }
  }

  /** The days before each month, which (153 * m - 457) / 5 approximates from March on. */
  lemma MonthsInClosedForm(y: int, m: int)
    requires 1 <= m <= 12
    ensures m < 3 ==> DaysBeforeMonth(y, m) == (153 * (m + 12) - 457) / 5 - 306
    ensures m >= 3 ==> DaysBeforeMonth(y, m) == (153 * m - 457) / 5 + 59 + (if Leap(y) then 1 else 0)
  {
    assert DaysBeforeMonth(y, 2) == DaysBeforeMonth(y, 1) + 31;
    assert DaysBeforeMonth(y, 3) == 31 + DaysInMonth(y, 2);
    assert DaysBeforeMonth(y, 4) == DaysBeforeMonth(y, 3) + 31;
    assert DaysBeforeMonth(y, 5) == DaysBeforeMonth(y, 4) + 30;
    assert DaysBeforeMonth(y, 6) == DaysBeforeMonth(y, 5) + 31;
    assert DaysBeforeMonth(y, 7) == DaysBeforeMonth(y, 6) + 30;
    assert DaysBeforeMonth(y, 8) == DaysBeforeMonth(y, 7) + 31;
    assert DaysBeforeMonth(y, 9) == DaysBeforeMonth(y, 8) + 31;
    assert DaysBeforeMonth(y, 10) == DaysBeforeMonth(y, 9) + 30;
    assert DaysBeforeMonth(y, 11) == DaysBeforeMonth(y, 10) + 31;
    assert DaysBeforeMonth(y, 12) == DaysBeforeMonth(y, 11) + 30;
  }

  /** The day count of the closed form: the year it starts in March is y or y - 1. */
  lemma DaysInClosedForm(d: Date)
    requires d.Valid()
    ensures var m := if d.month < 3 then d.month + 12 else d.month;
            var y := if d.month < 3 then d.year - 1 else d.year;
            d.DayNumber() == d.day + (153 * m - 457) / 5 + 365 * y + y / 4 - y / 100 + y / 400 - 307
  {
    MonthsInClosedForm(d.year, d.month);
    if d.month < 3 {
      YearsInClosedForm(d.year);
    } else {
      YearsInClosedForm(d.year + 1);
      assert DaysBeforeYear(d.year + 1) == DaysBeforeYear(d.year) + DaysInYear(d.year);
    }
  }

  /** The closed form counts the days of the calendar since the epoch. */
  lemma TimegmCountsDays(d: Date, c: Clock)
    requires d.Valid()
    ensures EPOCH.Valid()
    ensures TimegmOf(TmOf(d, c)) == 86400 * (d.DayNumber() - EPOCH.DayNumber()) + c.Seconds()
  {
    DaysInClosedForm(d);
    DaysInClosedForm(EPOCH);
    assert EPOCH.DayNumber() == 719162;
  }

  /** av_timegm: of the fields of a date and a time, the seconds since the epoch. */
  method Timegm(tm: Tm) returns (t: int)
    ensures EPOCH.Valid()
    ensures forall d: Date, c: Clock :: d.Valid() && tm == TmOf(d, c) ==>
              t == 86400 * (d.DayNumber() - EPOCH.DayNumber()) + c.Seconds()
    ensures t == TimegmOf(tm)
  {
    var y, m, d := tm.year + 1900, tm.mon + 1, tm.mday;
    if m < 3 {
      m := m + 12;
      y := y - 1;
    }
    t := 86400 * (d + Div(153 * m - 457, 5) + 365 * y + Div(y, 4) - Div(y, 100) + Div(y, 400) - 719469);
    t := t + (3600 * tm.hour + 60 * tm.min + tm.sec);
    assert t == TimegmOf(tm);
    hide TimegmOf;
    forall d: Date, c: Clock | d.Valid() && tm == TmOf(d, c)
      ensures t == 86400 * (d.DayNumber() - EPOCH.DayNumber()) + c.Seconds()
    {
      TimegmCountsDays(d, c);
    }
  }

  lemma {:induction false} YearsAccumulate(a: int, b: int)
    requires 1 <= a < b
    ensures DaysBeforeYear(a) + DaysInYear(a) <= DaysBeforeYear(b)
  {
    if a + 1 < b {
      YearsAccumulate(a, b - 1);
    }
  }

  lemma {:induction false} MonthsAccumulate(y: int, a: int, b: int)
    requires 1 <= a < b <= 12
    ensures DaysBeforeMonth(y, a) + DaysInMonth(y, a) <= DaysBeforeMonth(y, b)
  {
    if a + 1 < b {
      MonthsAccumulate(y, a, b - 1);
    }
  }

  lemma MonthFitsYear(y: int, m: int)
    requires 1 <= m <= 12
    ensures DaysBeforeMonth(y, m) + DaysInMonth(y, m) <= DaysInYear(y)
  {
    MonthsInClosedForm(y, m);
  }

  /** A later date, or a later time of the same date, gives a larger time_t. */
  lemma TimegmIncreases(d: Date, c: Clock, d': Date, c': Clock)
    requires d.Valid() && c.Valid() && d'.Valid() && c'.Valid() && c.Seconds() < 86400
    requires d.Before(d') || (d == d' && c.Seconds() < c'.Seconds())
    ensures TimegmOf(TmOf(d, c)) < TimegmOf(TmOf(d', c'))
  {
    TimegmCountsDays(d, c);
    TimegmCountsDays(d', c');
    if d.year < d'.year {
      YearsAccumulate(d.year, d'.year);
      MonthFitsYear(d.year, d.month);
    } else if d.Before(d') && d.month < d'.month {
      MonthsAccumulate(d.year, d.month, d'.month);
    }
  }

  // ----------------------------------------------------------------- the words

  function SkipSpaces(s: string, p: nat): (q: nat)
    requires p <= |s|
    ensures p <= q <= |s|
    decreases |s| - p
  {
    if p < |s| && IsSpace(s[p]) then SkipSpaces(s, p + 1) else p
  }

  function SkipWord(s: string, p: nat): (q: nat)
    requires p <= |s|
    ensures p <= q <= |s|
    decreases |s| - p
  {
    if p < |s| && !IsSpace(s[p]) then SkipWord(s, p + 1) else p
  }

  function WordAt(s: string, p: nat): string
    requires p <= |s|
  {
    s[SkipSpaces(s, p)..SkipWord(s, SkipSpaces(s, p))]
  }

  function AfterWord(s: string, p: nat): nat
    requires p <= |s|
  {
    SkipWord(s, SkipSpaces(s, p))
  }

  /** get_word: the next word, and where it ends. */
  method GetWord(s: string, src: nat) returns (word: string, p: nat)
    requires src <= |s|
    ensures word == WordAt(s, src) && p == AfterWord(s, src) <= |s|
  {
    p, word := src, [];
    while p < |s| && IsSpace(s[p])
      invariant src <= p <= |s| && SkipSpaces(s, src) == SkipSpaces(s, p)
    {
      p := p + 1;
    }
    ghost var start := p;
    while p < |s| && !IsSpace(s[p])
      invariant start <= p <= |s| && SkipWord(s, start) == SkipWord(s, p)
      invariant word == s[start..p]
    {
      word := word + [s[p]];
      p := p + 1;
    }
  }

  /** The name table; its entry 0 is the empty string. */
  function MonthName(i: nat): string
    requires i <= 12
  {
    if i == 0 then "" else if i == 1 then "Jan" else if i == 2 then "Feb" else if i == 3 then "Mar"
    else if i == 4 then "Apr" else if i == 5 then "May" else if i == 6 then "Jun" else if i == 7 then "Jul"
    else if i == 8 then "Aug" else if i == 9 then "Sep" else if i == 10 then "Oct" else if i == 11 then "Nov"
    else "Dec"
  }

  function MonthFrom(m: string, i: nat): nat
    requires i <= 13
    decreases 13 - i
  {
    if i == 13 then 0 else if MonthName(i) == m then i else MonthFrom(m, i + 1)
  }

  /** 1 to 12, or 0 for anything that names no month. */
  function MonthIndex(m: string): nat { MonthFrom(m, 0) }

  /** get_mon. */
  method GetMon(m: string) returns (i: int)
    ensures i == MonthIndex(m)
  {
    i := 0;
    while i < 13
      invariant 0 <= i <= 13 && MonthFrom(m, 0) == MonthFrom(m, i)
    {
      if MonthName(i) == m {
        return;
      }
      i := i + 1;
    }
    i := 0;
  }

  function DigitRun(s: string, width: nat): (n: nat)
    ensures n <= width && n <= |s|
  {
    if width == 0 || s == [] || !IsDigit(s[0]) then 0 else 1 + DigitRun(s[1..], width - 1)
  }

  /** One %2d of the scan: its value and the rest of the word, or None when it does not match. */
  function ScanTwo(s: string): Option<(int, string)> {
    var sign := if s != [] && (s[0] == '-' || s[0] == '+') then 1 else 0;
    var n := DigitRun(s[sign..], 2 - sign);
    if n == 0 then None else Some((Atoi(s[..sign + n]), s[sign + n..]))
  }

  /** sscanf(word, "%02d:%02d:%02d") into fields that start at zero. */
  function ScanClock(s: string): Clock {
    match ScanTwo(s)
    case None => Clock(0, 0, 0)
    case Some((h, r)) =>
      if r == [] || r[0] != ':' then Clock(h, 0, 0)
      else
        match ScanTwo(r[1..])
        case None => Clock(h, 0, 0)
        case Some((m, r2)) =>
          if r2 == [] || r2[0] != ':' then Clock(h, m, 0)
          else
            match ScanTwo(r2[1..])
            case None => Clock(h, m, 0)
            case Some((sec, _)) => Clock(h, m, sec)
  }

  const FORMAT := "%a, %d %b %Y %H:%M:%S GMT"

  /** Where word `k` (from 0) of a string starts being looked for. */
  function Cursor(s: string, k: nat): (p: nat)
    ensures p <= |s|
  {
    if k == 0 then 0 else AfterWord(s, Cursor(s, k - 1))
  }

  function Word(s: string, k: nat): string { WordAt(s, Cursor(s, k)) }

  function ParsedTm(s: string): Tm {
    var c := ScanClock(Word(s, 4));
    Tm(MonthIndex(Word(s, 2)) - 1, Atoi(Word(s, 1)), Atoi(Word(s, 3)) - 1900, c.hour, c.min, c.sec)
  }

  /** ff_strptime: None for a format it does not support. */
  method Strptime(str: string, fmt: string) returns (tt: Option<int>, p: nat)
    ensures tt == if fmt == FORMAT then Some(TimegmOf(ParsedTm(str))) else None
    ensures fmt == FORMAT ==> p == Cursor(str, 6)
  {
    tt, p := None, 0;
    if fmt != FORMAT {
      return;
    }
    var word;
    word, p := GetWord(str, p);
    assert p == Cursor(str, 1);
    word, p := GetWord(str, p);
    assert p == Cursor(str, 2);
    var mday := Atoi(word);
    word, p := GetWord(str, p);
    assert p == Cursor(str, 3);
    var i := GetMon(word);
    word, p := GetWord(str, p);
    assert p == Cursor(str, 4);
    var year := Atoi(word) - 1900;
    word, p := GetWord(str, p);
    assert p == Cursor(str, 5);
    var c := ScanClock(word);
    var t := Timegm(Tm(i - 1, mday, year, c.hour, c.min, c.sec));
    tt := Some(t);
    word, p := GetWord(str, p);
  }

  // ------------------------------------------------- printing, and reading back

  function Digit(n: int): char
    requires 0 <= n < 10
  {
    '0' + n as char
  }

  function Two(n: int): string
    requires 0 <= n < 100
  {
    [Digit(n / 10), Digit(n % 10)]
  }

  function Four(n: int): string
    requires 0 <= n < 10000
  {
    Two(n / 100) + Two(n % 100)
  }

  function ClockText(c: Clock): string
    requires c.Valid()
  {
    Two(c.hour) + ":" + Two(c.min) + ":" + Two(c.sec)
  }

  const MONTHS: string := "JanFebMarAprMayJunJulAugSepOctNovDec"

  /** month-name of section 5.6.7 of RFC 9110. */
  function MonthText(m: int): (name: string)
    requires 1 <= m <= 12
    ensures |name| == 3
  {
    [MONTHS[3 * m - 3], MONTHS[3 * m - 2], MONTHS[3 * m - 1]]
  }

  function Join(ws: seq<string>): string {
    if ws == [] then "" else if |ws| == 1 then ws[0] else ws[0] + " " + Join(ws[1..])
  }

  predicate IsWord(w: string) { w != [] && forall c <- w :: !IsSpace(c) }

  function FixdateWords(weekday: string, d: Date, c: Clock): seq<string>
    requires d.Valid() && d.year < 10000 && c.Valid()
  {
    [weekday, Two(d.day), MonthText(d.month), Four(d.year), ClockText(c), "GMT"]
  }

  /** An IMF-fixdate; `weekday` is its day name and comma, which the parser skips. */
  function ImfFixdate(weekday: string, d: Date, c: Clock): string
    requires d.Valid() && d.year < 10000 && c.Valid()
  {
    Join(FixdateWords(weekday, d, c))
  }

  lemma {:induction false} SkipWordStops(s: string, p: nat, q: nat)
    requires p <= q <= |s| && (forall i :: p <= i < q ==> !IsSpace(s[i])) && (q == |s| || IsSpace(s[q]))
    ensures SkipWord(s, p) == q
    decreases q - p
  {
    if p < q {
      SkipWordStops(s, p + 1, q);
    }
  }

  lemma FindsWordHere(s: string, a: nat, w: string, rest: string)
    requires a <= |s| && IsWord(w) && (rest == "" || IsSpace(rest[0]))
    requires s[a..] == w + rest
    ensures SkipSpaces(s, a) == a && SkipWord(s, a) == a + |w|
    ensures s[a..a + |w|] == w && s[a + |w|..] == rest
  {
    var q := a + |w|;
    assert |s| - a == |w| + |rest|;
    assert forall i :: a <= i < q ==> s[i] == s[a..][i - a] == w[i - a];
    assert q < |s| ==> s[q] == s[a..][|w|] == rest[0];
    assert s[a] == w[0];
    SkipWordStops(s, a, q);
  }

  /** Looking for a word from its start, or from the space before it, finds it whole. */
  lemma FindsWord(s: string, p: nat, w: string, rest: string)
    requires p <= |s| && IsWord(w) && (rest == "" || IsSpace(rest[0]))
    requires s[p..] == w + rest || s[p..] == " " + (w + rest)
    ensures WordAt(s, p) == w && AfterWord(s, p) <= |s| && s[AfterWord(s, p)..] == rest
  {
    if s[p..] == w + rest {
      FindsWordHere(s, p, w, rest);
    } else {
      assert s[p] == s[p..][0] == ' ';
      assert s[p + 1..] == s[p..][1..] == w + rest;
      FindsWordHere(s, p + 1, w, rest);
    }
  }

  /** Any number of blanks of any kind may stand ahead of a word. */
  lemma {:induction false} BlanksAreSkipped(s: string, p: nat, q: nat)
    requires p <= q <= |s| && forall i :: p <= i < q ==> s[i] as int == 32 || 9 <= s[i] as int <= 13
    ensures WordAt(s, p) == WordAt(s, q) && AfterWord(s, p) == AfterWord(s, q)
    decreases q - p
  {
    if p < q {
      BlanksAreSkipped(s, p + 1, q);
    }
  }

  /** The parser's cursor walks a joined list of words one by one. */
  lemma {:induction false} WordsOfJoin(ws: seq<string>, k: nat)
    requires k < |ws| && forall w <- ws :: IsWord(w)
    ensures Word(Join(ws), k) == ws[k]
    ensures Join(ws)[Cursor(Join(ws), k + 1)..] == if k + 1 == |ws| then "" else " " + Join(ws[k + 1..])
  {
    var s := Join(ws);
    var rest := if k + 1 == |ws| then "" else " " + Join(ws[k + 1..]);
    assert ws[k..][0] == ws[k] && ws[k..][1..] == ws[k + 1..];
    assert Join(ws[k..]) == ws[k] + rest;
    if k == 0 {
      assert ws[0..] == ws && s[0..] == s;
      FindsWord(s, 0, ws[0], rest);
    } else {
      WordsOfJoin(ws, k - 1);
      assert s[Cursor(s, k)..] == " " + (ws[k] + rest);
      FindsWord(s, Cursor(s, k), ws[k], rest);
    }
  }

  lemma TwoReadsBack(n: int, rest: string)
    requires 0 <= n < 100 && (rest == "" || !IsDigit(rest[0]))
    ensures ScanTwo(Two(n) + rest) == Some((n, rest)) && Atoi(Two(n)) == n && !IsSpace(Two(n)[0]) && !IsSpace(Two(n)[1])
  {
    var s := Two(n) + rest;
    var a, b := Digit(n / 10), Digit(n % 10);
    assert s[0] == a && s[1] == b && s[0..] == s;
    assert IsDigit(a) && IsDigit(b);
    assert s[1..][0] == b;
    assert DigitRun(s[1..], 1) == 1 + DigitRun(s[1..][1..], 0);
    assert DigitRun(s, 2) == 2;
    assert s[..2] == Two(n) && s[2..] == rest;
    assert Two(n)[1..] == [b] && [b][1..] == [];
    assert DigitsValue(Two(n), 0) == DigitsValue([b], n / 10) == DigitsValue([], 10 * (n / 10) + n % 10);
  }

  lemma FourReadsBack(n: int)
    requires 0 <= n < 10000
    ensures Atoi(Four(n)) == n && IsWord(Four(n))
  {
    var s := Four(n);
    var a, b, c, d := Digit(n / 100 / 10), Digit(n / 100 % 10), Digit(n % 100 / 10), Digit(n % 100 % 10);
    assert s == [a, b, c, d];
    assert s[1..] == [b, c, d] && [b, c, d][1..] == [c, d] && [c, d][1..] == [d] && [d][1..] == [];
    var x := n / 100 / 10;
    assert DigitsValue([d], n / 10) == DigitsValue([], 10 * (n / 10) + n % 100 % 10);
    assert DigitsValue([c, d], n / 100) == DigitsValue([d], 10 * (n / 100) + n % 100 / 10);
    assert DigitsValue([b, c, d], x) == DigitsValue([c, d], 10 * x + n / 100 % 10);
    assert DigitsValue(s, 0) == DigitsValue([b, c, d], x);
  }

  lemma ClockIsWord(c: Clock)
    requires c.Valid()
    ensures IsWord(ClockText(c))
  {
    assert forall n: int | 0 <= n < 10 :: !IsSpace(Digit(n));
  }

  lemma ClockReadsBack(c: Clock)
    requires c.Valid()
    ensures ScanClock(ClockText(c)) == c
  {
    var r2 := ":" + Two(c.sec);
    var r := ":" + (Two(c.min) + r2);
    TwoReadsBack(c.hour, r);
    TwoReadsBack(c.min, r2);
    TwoReadsBack(c.sec, "");
    ScanInSteps(ClockText(c), c, r, r2) by {
      assert ClockText(c) == Two(c.hour) + r;
      assert r[1..] == Two(c.min) + r2 && r2[1..] == Two(c.sec) + "";
    }
  }

  lemma ScanInSteps(s: string, c: Clock, r: string, r2: string)
    requires ScanTwo(s) == Some((c.hour, r)) && r != [] && r[0] == ':'
    requires ScanTwo(r[1..]) == Some((c.min, r2)) && r2 != [] && r2[0] == ':'
    requires ScanTwo(r2[1..]) == Some((c.sec, ""))
    ensures ScanClock(s) == c
  {}

  lemma TableIsPrinted(m: nat)
    requires 1 <= m <= 12
    ensures MonthName(m) == MonthText(m)
  {}

  /** No two entries of the table are the same. */
  lemma NamesDiffer(i: nat, m: nat)
    requires i < m <= 12
    ensures MonthName(i) != MonthName(m)
  {
    assert |MonthName(i)| == (if i == 0 then 0 else 3);
    assert i == 0 || MonthName(i)[0] != MonthName(m)[0] || MonthName(i)[1] != MonthName(m)[1]
           || MonthName(i)[2] != MonthName(m)[2];
  }

  /** A clock cut short reads as what is there of it. */
  lemma ShortClock(h: int, m: int, w: string)
    requires 0 <= h < 100 && 0 <= m < 100
    ensures ScanClock(Two(h)) == Clock(h, 0, 0)
    ensures ScanClock(Two(h) + ":" + Two(m)) == Clock(h, m, 0)
    ensures w == "" || !(IsDigit(w[0]) || w[0] == '+' || w[0] == '-') ==> ScanClock(w) == Clock(0, 0, 0)
  {
    hide ScanTwo, Two;
    TwoReadsBack(h, "");
    assert Two(h) + "" == Two(h);
    var r := ":" + Two(m);
    TwoReadsBack(h, r);
    TwoReadsBack(m, "");
    assert r[1..] == Two(m) + "";
    assert Two(h) + ":" + Two(m) == Two(h) + r;
    NoField(w);
  }

  lemma NoField(w: string)
    ensures w == "" || !(IsDigit(w[0]) || w[0] == '+' || w[0] == '-') ==> ScanTwo(w) == None
  {
    assert w[0..] == w;
  }

  /** A sign counts as one of the two characters of a field. */
  lemma SignedField(d: char, rest: string)
    requires IsDigit(d)
    ensures ScanTwo(['-', d] + rest) == Some((-((d - '0') as int), rest))
    ensures ScanTwo(['+', d] + rest) == Some(((d - '0') as int, rest))
  {
    var s, t := ['-', d] + rest, ['+', d] + rest;
    assert s[1..][0] == d && t[1..][0] == d;
    assert DigitRun(s[1..], 1) == 1 && DigitRun(t[1..], 1) == 1;
    var x := (d - '0') as int;
    assert DigitsValue([d], 0) == DigitsValue([], x) == x by {
      assert [d][1..] == [];
    }
    assert !IsSpace('-') && !IsSpace('+');
    assert s[..2] == ['-', d] && s[..2][1..] == [d] && s[2..] == rest;
    assert t[..2] == ['+', d] && t[..2][1..] == [d] && t[2..] == rest;
  }

  lemma {:induction false} FoundInTable(m: nat, i: nat)
    requires i <= m <= 12
    ensures MonthFrom(MonthName(m), i) == m
    decreases m - i
  {
    if i < m {
      NamesDiffer(i, m);
      FoundInTable(m, i + 1);
    }
  }

  lemma {:induction false} FoundIsThere(w: string, i: nat)
    requires i <= 13
    ensures var k := MonthFrom(w, i); k != 0 ==> i <= k <= 12 && MonthName(k) == w
    decreases 13 - i
  {
    if i < 13 {
      FoundIsThere(w, i + 1);
    }
  }

  /** The table is searched right: a word has index m exactly when it is the name of month m in
      print, and index 0 when it is none of the twelve. */
  lemma MonthReadsBack(w: string, m: nat)
    requires 1 <= m <= 12
    ensures MonthIndex(w) == m <==> w == MonthText(m)
    ensures MonthIndex(w) <= 12
    ensures IsWord(MonthText(m))
  {
    hide MonthText;
    FoundIsThere(w, 0);
    TableIsPrinted(m);
    FoundInTable(m, 0);
    MonthIsWord(m);
  }

  lemma MonthIsWord(m: nat)
    requires 1 <= m <= 12
    ensures IsWord(MonthText(m))
  {
    assert forall c | c in MonthText(m) :: 'A' <= c <= 'z';
  }

  lemma WordOfJoin(ws: seq<string>, k: nat)
    requires k < |ws| && forall w <- ws :: IsWord(w)
    ensures Word(Join(ws), k) == ws[k]
  {
    WordsOfJoin(ws, k);
  }

  lemma ParsesWords(s: string, ws: seq<string>)
    requires |ws| == 6 && s == Join(ws) && forall w <- ws :: IsWord(w)
    ensures Word(s, 1) == ws[1] && Word(s, 2) == ws[2] && Word(s, 3) == ws[3] && Word(s, 4) == ws[4]
  {
    WordOfJoin(ws, 1);
    WordOfJoin(ws, 2);
    WordOfJoin(ws, 3);
    WordOfJoin(ws, 4);
  }

  /** Every IMF-fixdate of the years 1 to 9999 parses to its second since the epoch. */
  lemma FixdateParses(weekday: string, d: Date, c: Clock)
    requires IsWord(weekday) && d.Valid() && d.year < 10000 && c.Valid()
    ensures EPOCH.Valid()
    ensures TimegmOf(ParsedTm(ImfFixdate(weekday, d, c)))
            == 86400 * (d.DayNumber() - EPOCH.DayNumber()) + c.Seconds()
  {
    assert ParsedTm(ImfFixdate(weekday, d, c)) == TmOf(d, c) by {
      FixdateFields(weekday, d, c);
    }
    TimegmCountsDays(d, c);
  }

  lemma FixdateWordsAreWords(weekday: string, d: Date, c: Clock)
    requires IsWord(weekday) && d.Valid() && d.year < 10000 && c.Valid()
    ensures forall w <- FixdateWords(weekday, d, c) :: IsWord(w)
  {
    TwoReadsBack(d.day, "");
    assert IsWord(Two(d.day));
    MonthReadsBack(MonthText(d.month), d.month);
    FourReadsBack(d.year);
    ClockIsWord(c);
  }

  lemma FixdateFields(weekday: string, d: Date, c: Clock)
    requires IsWord(weekday) && d.Valid() && d.year < 10000 && c.Valid()
    ensures ParsedTm(ImfFixdate(weekday, d, c)) == TmOf(d, c)
  {
    FixdateWordsAreWords(weekday, d, c);
    ParsesWords(ImfFixdate(weekday, d, c), FixdateWords(weekday, d, c));
    TwoReadsBack(d.day, "");
    MonthReadsBack(MonthText(d.month), d.month);
    FourReadsBack(d.year);
    ClockReadsBack(c);
  }
}
