/** The RFC 3339 printer of the webhook payload, and the hour buckets of the scan. */
module Timestamp {
  import opened Calendar
  import opened Seqs
  import opened Text

  // ----- Decimal numbers -----

  function Digit(d: int): char
    requires 0 <= d <= 9
  {
    ('0' as int + d) as char
  }

  function Decimal(n: nat): string {
    if n < 10 then [Digit(n)] else Decimal(n / 10) + [Digit(n % 10)]
  }

  function Zeros(k: int): string {
    if k <= 0 then "" else Zeros(k - 1) + "0"
  }

  /** `{n:0w}`: zeros up to the width, the sign counted in it. */
  function Pad(n: int, width: int): string {
    if n >= 0 then Zeros(width - |Decimal(n)|) + Decimal(n)
    else "-" + Zeros(width - 1 - |Decimal(-n)|) + Decimal(-n)
  }

  function Print(epochMs: int): string {
    var totalSecs := epochMs / 1000;
    PrintFields(CivilFromDays(totalSecs / 86_400), totalSecs % 86_400)
  }

  function PrintFields(date: Date, secsOfDay: int): string {
    Assemble(Pad(date.year, 4), Pad(date.month, 2), Pad(date.day, 2),
             Pad(secsOfDay / 3600, 2), Pad(secsOfDay % 3600 / 60, 2), Pad(secsOfDay % 60, 2))
  }

  function Assemble(year: string, month: string, day: string,
                    hour: string, minute: string, second: string): string {
    year + ("-" + (month + ("-" + (day + ("T" + (hour + (":" + (minute + (":" + (second + "Z"))))))))))
  }

  // ----- Reading a timestamp back (section 5.6 of RFC 3339, UTC, whole seconds) -----

  predicate AllDigits(s: string) { forall i :: 0 <= i < |s| ==> '0' <= s[i] <= '9' }

  function Value(s: string): nat
    requires AllDigits(s)
  {
    if s == [] then 0 else Value(s[..|s| - 1]) * 10 + (s[|s| - 1] as int - '0' as int)
  }

  function Parse(s: string): Option<int> {
    if |s| != 20 then None
    else
      var year, month, day := s[..4], s[5..7], s[8..10];
      var hour, minute, second := s[11..13], s[14..16], s[17..19];
      if !(AllDigits(year) && AllDigits(month) && AllDigits(day) &&
           AllDigits(hour) && AllDigits(minute) && AllDigits(second)) then None
      else if s != Assemble(year, month, day, hour, minute, second) then None
      else
        var date := Date(Value(year), Value(month), Value(day));
        if !ValidDate(date) || Value(hour) >= 24 || Value(minute) >= 60 || Value(second) >= 60 then None
        else Some(DaysFromCivil(date) * 86_400 + Value(hour) * 3600 + Value(minute) * 60 + Value(second))
  }

  // ----- Fixed-width fields -----

  function Pow10(w: nat): nat { if w == 0 then 1 else 10 * Pow10(w - 1) }

  function Fixed(n: nat, width: nat): string {
    if width == 0 then "" else Fixed(n / 10, width - 1) + [Digit(n % 10)]
  }

  lemma {:induction false} FixedReads(n: nat, width: nat)
    requires n < Pow10(width)
    ensures |Fixed(n, width)| == width && AllDigits(Fixed(n, width)) && Value(Fixed(n, width)) == n
  {
    if width > 0 { FixedReads(n / 10, width - 1); }
  }

  lemma {:induction false} FixedOfZero(width: nat)
    ensures Fixed(0, width) == Zeros(width)
  {
    if width > 0 { FixedOfZero(width - 1); }
  }

  lemma {:induction false} PadIsFixed(n: nat, width: nat)
    requires 0 < width && n < Pow10(width)
    ensures Pad(n, width) == Fixed(n, width)
  {
    if n < 10 {
      FixedOfZero(width - 1);
      assert Fixed(n, width) == Fixed(n / 10, width - 1) + [Digit(n % 10)];
    } else {
      assert width > 1;
      PadIsFixed(n / 10, width - 1);
    }
  }

  lemma {:induction false} FixedIsMonotone(m: nat, n: nat, width: nat)
    requires m < n < Pow10(width)
    ensures |Fixed(m, width)| == |Fixed(n, width)| && Less(Fixed(m, width), Fixed(n, width))
  {
    FixedReads(m, width);
    FixedReads(n, width);
    if m / 10 == n / 10 {
      LessAfterPrefix(Fixed(m / 10, width - 1), [Digit(m % 10)], [Digit(n % 10)]);
    } else {
      FixedIsMonotone(m / 10, n / 10, width - 1);
      LessOfHeads(Fixed(m / 10, width - 1), Fixed(n / 10, width - 1), [Digit(m % 10)], [Digit(n % 10)]);
    }
  }

  lemma {:induction false} DecimalIsLong(n: nat, width: nat)
    requires n >= Pow10(width)
    ensures |Decimal(n)| > width
  {
    if width > 0 {
      assert n / 10 >= Pow10(width - 1);
      DecimalIsLong(n / 10, width - 1);
    }
  }

  // ----- The whole timestamp -----

  predicate FieldWidths(year: string, month: string, day: string, hour: string, minute: string, second: string) {
    |year| == 4 && |month| == |day| == |hour| == |minute| == |second| == 2
  }

  lemma Fields(year: string, month: string, day: string, hour: string, minute: string, second: string)
    requires FieldWidths(year, month, day, hour, minute, second)
    ensures var s := Assemble(year, month, day, hour, minute, second);
            |s| == 20 && s[..4] == year && s[5..7] == month && s[8..10] == day
            && s[11..13] == hour && s[14..16] == minute && s[17..19] == second
            && s[4] == '-' && s[7] == '-' && s[10] == 'T' && s[13] == ':' && s[16] == ':' && s[19] == 'Z'
  {
    var r5 := ":" + (second + "Z");
    var r4 := ":" + (minute + r5);
    var r3 := "T" + (hour + r4);
    var r2 := "-" + (day + r3);
    FieldAfter(year, "-", month, r2);
    FieldAfter(year + "-" + month, "-", day, r3);
    FieldAfter(year + "-" + month + "-" + day, "T", hour, r4);
    FieldAfter(year + "-" + month + "-" + day + "T" + hour, ":", minute, r5);
    FieldAfter(year + "-" + month + "-" + day + "T" + hour + ":" + minute, ":", second, "Z");
  }

  lemma FieldAfter(before: string, mark: string, field: string, rest: string)
    requires |mark| == 1
    ensures before + (mark + (field + rest)) == before + mark + field + rest
    ensures (before + mark + field + rest)[|before| + 1..|before| + 1 + |field|] == field
    ensures (before + mark + field + rest)[|before|] == mark[0]
  {
  }

  lemma Powers()
    ensures Pow10(2) == 100 && Pow10(4) == 10_000
  {
    assert Pow10(1) == 10 && Pow10(3) == 1000;
  }

  lemma Field(n: nat, width: nat)
    requires 0 < width && n < Pow10(width)
    ensures |Pad(n, width)| == width && AllDigits(Pad(n, width)) && Value(Pad(n, width)) == n
  {
    PadIsFixed(n, width);
    FixedReads(n, width);
  }

  predicate Printable(date: Date, secs: int) {
    ValidDate(date) && 0 <= date.year <= 9999 && 0 <= secs < 86_400
  }

  lemma ParseFields(date: Date, secs: int)
    requires Printable(date, secs)
    ensures |PrintFields(date, secs)| == 20
    ensures Parse(PrintFields(date, secs)) == Some(DaysFromCivil(date) * 86_400 + secs)
  {
    hide Pad, Decimal, Zeros, Value, AllDigits, Pow10, Assemble, DaysFromCivil;
    Powers();
    Field(date.year, 4);
    Field(date.month, 2);
    Field(date.day, 2);
    var h, m, s := secs / 3600, secs % 3600 / 60, secs % 60;
    assert h * 3600 + m * 60 + s == secs && h < 24 && m < 60 && s < 60;
    Field(h, 2);
    Field(m, 2);
    Field(s, 2);
    Fields(Pad(date.year, 4), Pad(date.month, 2), Pad(date.day, 2), Pad(h, 2), Pad(m, 2), Pad(s, 2));
  }

  lemma SignIsRejected(s: string)
    requires s != [] && s[0] == '-'
    ensures Parse(s) == None
  {
    if |s| == 20 {
      assert s[..4][0] == '-';
    }
  }

  lemma FirstCharacter(year: string, month: string, day: string, hour: string, minute: string, second: string)
    requires year != []
    ensures Assemble(year, month, day, hour, minute, second)[0] == year[0]
    ensures |Assemble(year, month, day, hour, minute, second)|
         == |year| + |month| + |day| + |hour| + |minute| + |second| + 6
  {
  }

  lemma AtLeastTwo(n: int)
    requires 0 <= n
    ensures |Pad(n, 2)| >= 2
  {
    ZerosLength(2 - |Decimal(n)|);
  }

  lemma {:induction false} ZerosLength(k: int)
    ensures |Zeros(k)| == if k <= 0 then 0 else k
  {
    if k > 0 { ZerosLength(k - 1); }
  }

  lemma ParseRejects(date: Date, secs: int)
    requires date.year < 0 || date.year > 9999
    requires 1 <= date.month && 1 <= date.day && 0 <= secs
    ensures Parse(PrintFields(date, secs)) == None
  {
    hide Parse, Assemble, Decimal, Pow10;
    var h, m, s := secs / 3600, secs % 3600 / 60, secs % 60;
    Powers();
    if date.year < 0 {
      SignIsRejected(PrintFields(date, secs)) by {
        FirstCharacter(Pad(date.year, 4), Pad(date.month, 2), Pad(date.day, 2), Pad(h, 2), Pad(m, 2), Pad(s, 2));
      }
    } else {
      DecimalIsLong(date.year, 4);
      FirstCharacter(Pad(date.year, 4), Pad(date.month, 2), Pad(date.day, 2), Pad(h, 2), Pad(m, 2), Pad(s, 2));
      AtLeastTwo(date.month);
      AtLeastTwo(date.day);
      AtLeastTwo(h);
      AtLeastTwo(m);
      AtLeastTwo(s);
      LengthIsRejected(PrintFields(date, secs));
    }
  }

  lemma LengthIsRejected(s: string)
    requires |s| != 20
    ensures Parse(s) == None
  {
  }

  function YearAt(epochMs: int): int { CivilFromDays(epochMs / 1000 / 86_400).year }

  /** A timestamp reads back as the second it was printed from exactly in the
      four-digit years, where it always has twenty characters. */
  lemma PrintThenParse(epochMs: int)
    ensures Parse(Print(epochMs))
         == if 0 <= YearAt(epochMs) <= 9999 then Some(epochMs / 1000) else None
    ensures 0 <= YearAt(epochMs) <= 9999 ==> |Print(epochMs)| == 20
  {
    hide Parse, PrintFields, CivilFromDays, DaysFromCivil;
    var days, secs := epochMs / 1000 / 86_400, epochMs / 1000 % 86_400;
    var date := CivilFromDays(days);
    DayRoundTrip(days);
    if 0 <= date.year <= 9999 {
      ParseFields(date, secs);
    } else {
      ParseRejects(date, secs);
    }
  }

  // ----- Text order is time order -----

  /** One leading field decides, or the rest does. */
  lemma FieldThenRest(m: nat, n: nat, width: nat, a: string, b: string)
    requires 0 < width && m <= n < Pow10(width)
    requires m == n ==> Less(a, b)
    ensures Less(Pad(m, width) + a, Pad(n, width) + b)
  {
    PadIsFixed(m, width);
    PadIsFixed(n, width);
    if m == n {
      LessAfterPrefix(Fixed(m, width), a, b);
    } else {
      FixedIsMonotone(m, n, width);
      LessOfHeads(Fixed(m, width), Fixed(n, width), a, b);
    }
  }

  lemma ClockLess(s: int, t: int)
    requires 0 <= s < t < 86_400
    ensures Less(Pad(s / 3600, 2) + (":" + (Pad(s % 3600 / 60, 2) + (":" + (Pad(s % 60, 2) + "Z")))),
                 Pad(t / 3600, 2) + (":" + (Pad(t % 3600 / 60, 2) + (":" + (Pad(t % 60, 2) + "Z")))))
  {
    hide Pad, Less, Pow10;
    Powers();
    var s1, s2, s3 := s / 3600, s % 3600 / 60, s % 60;
    var t1, t2, t3 := t / 3600, t % 3600 / 60, t % 60;
    assert s1 * 3600 + s2 * 60 + s3 == s && s1 < 24 && s2 < 60 && s3 < 60;
    assert t1 * 3600 + t2 * 60 + t3 == t && t1 < 24 && t2 < 60 && t3 < 60;
    if s1 == t1 {
      if s2 == t2 {
        FieldThenRest(s3, t3, 2, "Z", "Z");
        LessAfterPrefix(":", Pad(s3, 2) + "Z", Pad(t3, 2) + "Z");
      }
      FieldThenRest(s2, t2, 2, ":" + (Pad(s3, 2) + "Z"), ":" + (Pad(t3, 2) + "Z"));
      LessAfterPrefix(":", Pad(s2, 2) + (":" + (Pad(s3, 2) + "Z")), Pad(t2, 2) + (":" + (Pad(t3, 2) + "Z")));
    }
    FieldThenRest(s1, t1, 2, ":" + (Pad(s2, 2) + (":" + (Pad(s3, 2) + "Z"))),
                  ":" + (Pad(t2, 2) + (":" + (Pad(t3, 2) + "Z"))));
  }

  lemma FieldsLess(a: Date, s: int, b: Date, t: int)
    requires Printable(a, s) && Printable(b, t)
    requires DateLess(a, b) || (a == b && s < t)
    ensures Less(PrintFields(a, s), PrintFields(b, t))
  {
    hide Pad, Less, Pow10;
    Powers();
    var x := Pad(s / 3600, 2) + (":" + (Pad(s % 3600 / 60, 2) + (":" + (Pad(s % 60, 2) + "Z"))));
    var y := Pad(t / 3600, 2) + (":" + (Pad(t % 3600 / 60, 2) + (":" + (Pad(t % 60, 2) + "Z"))));
    if a.year == b.year {
      if a.month == b.month {
        if a.day == b.day {
          ClockLess(s, t);
          LessAfterPrefix("T", x, y);
        }
        FieldThenRest(a.day, b.day, 2, "T" + x, "T" + y);
        LessAfterPrefix("-", Pad(a.day, 2) + ("T" + x), Pad(b.day, 2) + ("T" + y));
      }
      FieldThenRest(a.month, b.month, 2, "-" + (Pad(a.day, 2) + ("T" + x)), "-" + (Pad(b.day, 2) + ("T" + y)));
      LessAfterPrefix("-", Pad(a.month, 2) + ("-" + (Pad(a.day, 2) + ("T" + x))),
                      Pad(b.month, 2) + ("-" + (Pad(b.day, 2) + ("T" + y))));
    }
    FieldThenRest(a.year, b.year, 4, "-" + (Pad(a.month, 2) + ("-" + (Pad(a.day, 2) + ("T" + x)))),
                  "-" + (Pad(b.month, 2) + ("-" + (Pad(b.day, 2) + ("T" + y)))));
  }

  /** Comparing two timestamps as text compares their instants to the second. */
  lemma TextOrderIsTimeOrder(ms1: int, ms2: int)
    requires 0 <= YearAt(ms1) <= 9999 && 0 <= YearAt(ms2) <= 9999
    ensures Less(Print(ms1), Print(ms2)) <==> ms1 / 1000 < ms2 / 1000
  {
    if ms1 / 1000 < ms2 / 1000 {
      EarlierPrintsLess(ms1, ms2);
    } else if ms1 / 1000 > ms2 / 1000 {
      EarlierPrintsLess(ms2, ms1);
      LessIsTotal(Print(ms1), Print(ms2));
    } else {
      LessIsIrreflexive(Print(ms1));
    }
  }

  lemma EarlierPrintsLess(ms1: int, ms2: int)
    requires 0 <= YearAt(ms1) <= 9999 && 0 <= YearAt(ms2) <= 9999
    requires ms1 / 1000 < ms2 / 1000
    ensures Less(Print(ms1), Print(ms2))
  {
    hide PrintFields, CivilFromDays, DaysFromCivil, Less;
    var t1, t2 := ms1 / 1000, ms2 / 1000;
    var d1, d2 := t1 / 86_400, t2 / 86_400;
    DayRoundTrip(d1);
    DayRoundTrip(d2);
    if d1 < d2 { CivilIsIncreasing(d1, d2); }
    FieldsLess(CivilFromDays(d1), t1 % 86_400, CivilFromDays(d2), t2 % 86_400);
  }

  // ----- The scan's hour buckets -----

  /** Integer division that rounds towards zero. */
  function TruncDiv(a: int, b: int): int
    requires b > 0
  {
    if a >= 0 then a / b else -((-a) / b)
  }

  function HourBucket(date: int): int { TruncDiv(TruncDiv(date, 1000), 3600) % 24 }

  function PrintedHour(epochMs: int): int { epochMs / 1000 % 86_400 / 3600 }

  /** The text reads as this number, in this many digits. */
  predicate Reads(s: string, n: int, width: nat) { |s| == width && AllDigits(s) && Value(s) == n }

  /** Every character of a printed timestamp: the date of its day, the time of day to the
      second, and the marks between them. */
  lemma PrintedFields(epochMs: int)
    requires 0 <= YearAt(epochMs) <= 9999
    ensures var s := Print(epochMs);
      var date := CivilFromDays(epochMs / 1000 / 86_400);
      var secs := epochMs / 1000 % 86_400;
      && |s| == 20
      && Reads(s[..4], date.year, 4) && Reads(s[5..7], date.month, 2) && Reads(s[8..10], date.day, 2)
      && Reads(s[11..13], secs / 3600, 2) && Reads(s[14..16], secs % 3600 / 60, 2) && Reads(s[17..19], secs % 60, 2)
      && s[4] == '-' && s[7] == '-' && s[10] == 'T' && s[13] == ':' && s[16] == ':' && s[19] == 'Z'
  {
    hide Pad, Assemble, Pow10, CivilFromDays, DaysFromCivil, AllDigits, Value;
    var days, secs := epochMs / 1000 / 86_400, epochMs / 1000 % 86_400;
    var date := CivilFromDays(days);
    DayRoundTrip(days);
    var h, m, s := secs / 3600, secs % 3600 / 60, secs % 60;
    Powers();
    Field(date.year, 4);
    Field(date.month, 2);
    Field(date.day, 2);
    Field(h, 2);
    Field(m, 2);
    Field(s, 2);
    Fields(Pad(date.year, 4), Pad(date.month, 2), Pad(date.day, 2), Pad(h, 2), Pad(m, 2), Pad(s, 2));
  }

  /** The hour field of a printed timestamp. */
  lemma HourField(epochMs: int)
    requires 0 <= YearAt(epochMs) <= 9999
    ensures |Print(epochMs)| == 20 && Print(epochMs)[11..13] == Pad(PrintedHour(epochMs), 2)
  {
    hide Pad, Assemble, Pow10, CivilFromDays, DaysFromCivil, AllDigits, Value;
    var days, secs := epochMs / 1000 / 86_400, epochMs / 1000 % 86_400;
    var date := CivilFromDays(days);
    DayRoundTrip(days);
    var h, m, s := secs / 3600, secs % 3600 / 60, secs % 60;
    Powers();
    Field(date.year, 4);
    Field(date.month, 2);
    Field(date.day, 2);
    Field(h, 2);
    Field(m, 2);
    Field(s, 2);
    Fields(Pad(date.year, 4), Pad(date.month, 2), Pad(date.day, 2), Pad(h, 2), Pad(m, 2), Pad(s, 2));
  }

  lemma TruncHours(date: int)
    ensures TruncDiv(TruncDiv(date, 1000), 3600)
         == date / 3_600_000 + (if date < 0 && date % 3_600_000 != 0 then 1 else 0)
  {
    if date < 0 {
      var h, r := (-date) / 3_600_000, (-date) % 3_600_000;
      assert (-date) / 1000 == 3600 * h + r / 1000;
      assert (3600 * h + r / 1000) / 3600 == h;
    }
  }

  lemma FloorHours(date: int)
    ensures PrintedHour(date) == date / 3_600_000 % 24
  {
    var t := date / 1000;
    assert t / 3600 == date / 3_600_000;
    assert t % 86_400 == t - 86_400 * (t / 86_400);
    assert t % 86_400 / 3600 == t / 3600 - 24 * (t / 86_400);
  }

  /** A message's bucket is the hour its date prints, except before 1970 off the full hour. */
  lemma BucketIsPrintedHour(date: int)
    ensures HourBucket(date) == PrintedHour(date) <==> (date >= 0 || date % 3_600_000 == 0)
  {
    TruncHours(date);
    FloorHours(date);
  }

  /** A millisecond before 1970 falls into hour 0 but prints hour 23. */
  lemma AnEarlyHourIsOff()
    ensures HourBucket(-1) == 0 && PrintedHour(-1) == 23
  {
  }
}
