/** The `yyyy-mm-dd hh:mm:ss` text of a second count (filter.rs), and that its order as text
    is the order of time. */
module Timestamps {

  import opened Decimal
  import opened Civil

  /** A number padded with zeros to a width; a longer one is not cut. */
  function Padded(n: nat, width: nat): string
  {
    var text := NatText(n);
    seq(if |text| < width then width - |text| else 0, _ => '0') + text
  }

  /** A year padded to four places, a minus sign taking one. */
  function PaddedYear(y: int): string { if y >= 0 then Padded(y, 4) else "-" + Padded(-y, 3) }

  function NaiveString(secs: nat): string
  {
    var (y, m, d) := DaysToYmd(secs / 86_400);
    var day := secs % 86_400;
    PaddedYear(y) + ("-" + (Padded(m, 2) + ("-" + (Padded(d, 2) + (" " + (Padded(day / 3600, 2)
    + (":" + (Padded(day / 60 % 60, 2) + (":" + Padded(day % 60, 2))))))))))
  }

  /** Dictionary order between texts of one length. */
  ghost predicate TextLess(a: string, b: string)
  {
    |a| == |b| && exists k :: 0 <= k < |a| && a[..k] == b[..k] && a[k] < b[k]
  }

  lemma TextLessHead(a: string, b: string, x: string, y: string)
    requires TextLess(a, b) && |x| == |y|
    ensures TextLess(a + x, b + y)
  {
    var k :| 0 <= k < |a| && a[..k] == b[..k] && a[k] < b[k];
    assert (a + x)[..k] == a[..k] && (b + y)[..k] == b[..k];
  }

  lemma TextLessTail(a: string, x: string, y: string)
    requires TextLess(x, y)
    ensures TextLess(a + x, a + y)
  {
    var k :| 0 <= k < |x| && x[..k] == y[..k] && x[k] < y[k];
    assert (a + x)[..|a| + k] == a + x[..k] && (a + y)[..|a| + k] == a + y[..k];
    assert (a + x)[|a| + k] == x[k] && (a + y)[|a| + k] == y[k];
  }

  function Pow10(w: nat): nat { if w == 0 then 1 else 10 * Pow10(w - 1) }

  function LastDigit(n: nat): string { ['0' + (n % 10) as char] }

  lemma LastDigitsAscend(a: nat, b: nat)
    requires a < b
    ensures a / 10 <= b / 10
    ensures a / 10 == b / 10 ==> TextLess(LastDigit(a), LastDigit(b))
  {
    if a / 10 == b / 10 {
      assert a % 10 < b % 10;
      var x, y := LastDigit(a), LastDigit(b);
      assert x[..0] == y[..0] && x[0] < y[0];
    }
  }

  /** The last `w` digits of a number. */
  function Digits(n: nat, w: nat): (s: string)
    ensures |s| == w
  {
    if w == 0 then "" else Digits(n / 10, w - 1) + LastDigit(n)
  }

  lemma {:induction false} DigitsOfZero(w: nat)
    ensures Digits(0, w) == seq(w, _ => '0')
  {
    if w > 0 {
      DigitsOfZero(w - 1);
    }
  }

  lemma PaddedDigit(n: nat, w: nat)
    requires w > 0 && n < 10
    ensures Padded(n, w) == seq(w - 1, _ => '0') + LastDigit(n)
  {
    assert NatText(n) == LastDigit(n);
  }

  lemma PaddedMore(n: nat, w: nat)
    requires w > 0 && n >= 10
    ensures Padded(n, w) == Padded(n / 10, w - 1) + LastDigit(n)
  {
    assert NatText(n) == NatText(n / 10) + LastDigit(n);
  }

  lemma {:induction false} PaddedIsDigits(n: nat, w: nat)
    requires w > 0 && n < Pow10(w)
    ensures Padded(n, w) == Digits(n, w)
  {
    if n < 10 {
      PaddedDigit(n, w);
      DigitsOfZero(w - 1);
      assert n / 10 == 0;
    } else {
      PaddedMore(n, w);
      assert w > 1 by {
        assert Pow10(1) == 10 * Pow10(0);
      }
      PaddedIsDigits(n / 10, w - 1);
    }
  }

  lemma {:induction false} DigitsAscend(a: nat, b: nat, w: nat)
    requires a < b < Pow10(w)
    ensures TextLess(Digits(a, w), Digits(b, w))
  {
    var x, y := LastDigit(a), LastDigit(b);
    LastDigitsAscend(a, b);
    if a / 10 < b / 10 {
      DigitsAscend(a / 10, b / 10, w - 1);
      TextLessHead(Digits(a / 10, w - 1), Digits(b / 10, w - 1), x, y);
    } else {
      TextLessTail(Digits(a / 10, w - 1), x, y);
    }
  }

  /** Two numbers of one width, then the same mark, then the rest. */
  lemma FieldAscends(a: nat, b: nat, w: nat, x: string, y: string)
    requires w > 0 && a < Pow10(w) && b < Pow10(w) && |x| == |y|
    requires a < b || (a == b && TextLess(x, y))
    ensures TextLess(Padded(a, w) + x, Padded(b, w) + y)
  {
    PaddedIsDigits(a, w);
    PaddedIsDigits(b, w);
    if a < b {
      DigitsAscend(a, b, w);
      TextLessHead(Padded(a, w), Padded(b, w), x, y);
    } else {
      TextLessTail(Padded(a, w), x, y);
    }
  }

  lemma FieldLength(a: nat, w: nat)
    requires w > 0 && a < Pow10(w)
    ensures |Padded(a, w)| == w
  {
    PaddedIsDigits(a, w);
  }

  function TimeText(day: nat): string
  {
    Padded(day / 3600, 2) + (":" + (Padded(day / 60 % 60, 2) + (":" + Padded(day % 60, 2))))
  }

  lemma TimeAscends(a: nat, b: nat)
    requires a <= b < 86_400
    ensures |TimeText(a)| == |TimeText(b)| == 8
    ensures a < b ==> TextLess(TimeText(a), TimeText(b))
  {
    assert Pow10(2) == 100;
    FieldLength(a / 3600, 2);
    FieldLength(b / 3600, 2);
    FieldLength(a / 60 % 60, 2);
    FieldLength(b / 60 % 60, 2);
    FieldLength(a % 60, 2);
    FieldLength(b % 60, 2);
    var sa, sb := ":" + Padded(a % 60, 2), ":" + Padded(b % 60, 2);
    var ma, mb := Padded(a / 60 % 60, 2) + sa, Padded(b / 60 % 60, 2) + sb;
    if a < b {
      ClockAscends(a, b);
      if a / 3600 < b / 3600 {
        FieldAscends(a / 3600, b / 3600, 2, ":" + ma, ":" + mb);
      } else {
        if a / 60 % 60 == b / 60 % 60 {
          FieldAscends(a % 60, b % 60, 2, "", "");
          assert Padded(a % 60, 2) + "" == Padded(a % 60, 2) && Padded(b % 60, 2) + "" == Padded(b % 60, 2);
          TextLessTail(":", Padded(a % 60, 2), Padded(b % 60, 2));
        }
        FieldAscends(a / 60 % 60, b / 60 % 60, 2, sa, sb);
        TextLessTail(":", ma, mb);
        FieldAscends(a / 3600, b / 3600, 2, ":" + ma, ":" + mb);
      }
    }
  }

  lemma ClockAscends(a: nat, b: nat)
    requires a < b
    ensures a / 3600 <= b / 3600
    ensures a / 3600 == b / 3600 ==> a / 60 % 60 <= b / 60 % 60
    ensures a / 3600 == b / 3600 && a / 60 % 60 == b / 60 % 60 ==> a % 60 < b % 60
  {
    HourOf(a);
    HourOf(b);
  }

  lemma HourOf(a: nat)
    ensures a / 60 == 60 * (a / 3600) + a / 60 % 60
  {
    assert a / 3600 == a / 60 / 60;
  }

  function DateText(date: (int, nat, nat)): string
  {
    PaddedYear(date.0) + ("-" + (Padded(date.1, 2) + ("-" + Padded(date.2, 2))))
  }

  predicate FourDigitDate(date: (int, nat, nat)) { 0 <= date.0 < 10_000 && IsDate(date.0, date.1, date.2) }

  lemma DateTextLength(a: (int, nat, nat))
    requires FourDigitDate(a)
    ensures |DateText(a)| == 10
  {
    assert Pow10(2) == 100 && Pow10(4) == 10_000;
    FieldLength(a.0, 4);
    FieldLength(a.1, 2);
    FieldLength(a.2, 2);
  }

  lemma DateAscends(a: (int, nat, nat), b: (int, nat, nat))
    requires FourDigitDate(a) && FourDigitDate(b) && Earlier(a, b)
    ensures TextLess(DateText(a), DateText(b))
  {
    assert Pow10(2) == 100 && Pow10(4) == 10_000;
    FieldLength(a.1, 2);
    FieldLength(b.1, 2);
    FieldLength(a.2, 2);
    FieldLength(b.2, 2);
    var da, db := "-" + Padded(a.2, 2), "-" + Padded(b.2, 2);
    var ma, mb := Padded(a.1, 2) + da, Padded(b.1, 2) + db;
    if a.0 == b.0 {
      if a.1 == b.1 {
        FieldAscends(a.2, b.2, 2, "", "");
        assert Padded(a.2, 2) + "" == Padded(a.2, 2) && Padded(b.2, 2) + "" == Padded(b.2, 2);
        TextLessTail("-", Padded(a.2, 2), Padded(b.2, 2));
      }
      FieldAscends(a.1, b.1, 2, da, db);
      TextLessTail("-", ma, mb);
    }
    FieldAscends(a.0, b.0, 4, "-" + ma, "-" + mb);
  }

  /** The first second of the year 10000. */
  const YEAR_10000 := 253_402_300_800

  lemma FourDigits(days: nat, date: (int, nat, nat), epoch: int, end: int)
    requires Counts(date, days) && days < YEAR_10000 / 86_400
    requires epoch == 1970 && end == 10_000
    ensures FourDigitDate(date)
  {
    DaysToYearIs(epoch);
    DaysToYearIs(end);
    YearsBefore(epoch, date.0, date.1, date.2);
    YearsBefore(end, date.0, date.1, date.2);
  }

  lemma NaiveParts(secs: nat)
    requires secs < YEAR_10000
    ensures DaysToYmd(secs / 86_400) == CivilDate(secs / 86_400) && FourDigitDate(CivilDate(secs / 86_400))
    ensures NaiveString(secs) == DateText(CivilDate(secs / 86_400)) + (" " + TimeText(secs % 86_400))
  {
    var days := secs / 86_400;
    CivilDateCounts(days);
    FourDigits(days, CivilDate(days), 1970, 10_000);
    CastKeepsIff(CivilDate(days).0);
    var date := CivilDate(days);
    var t := " " + TimeText(secs % 86_400);
    assert DateText(date) + t
        == PaddedYear(date.0) + ("-" + (Padded(date.1, 2) + ("-" + (Padded(date.2, 2) + t))));
  }

  lemma StampAscends(a: (int, nat, nat), b: (int, nat, nat), s: nat, t: nat)
    requires FourDigitDate(a) && FourDigitDate(b) && s < 86_400 && t < 86_400
    requires Earlier(a, b) || (a == b && s < t)
    ensures TextLess(DateText(a) + (" " + TimeText(s)), DateText(b) + (" " + TimeText(t)))
  {
    DateTextLength(a);
    DateTextLength(b);
    TimeAscends(s, s);
    TimeAscends(t, t);
    if Earlier(a, b) {
      DateAscends(a, b);
      TextLessHead(DateText(a), DateText(b), " " + TimeText(s), " " + TimeText(t));
    } else {
      TimeAscends(s, t);
      TextLessTail(" ", TimeText(s), TimeText(t));
      TextLessTail(DateText(a), " " + TimeText(s), " " + TimeText(t));
    }
  }

  lemma DayAndSecond(a: nat, b: nat)
    requires a < b
    ensures a / 86_400 < b / 86_400 || (a / 86_400 == b / 86_400 && a % 86_400 < b % 86_400)
  {
  }

  /** While years have four digits, a later second has a greater text. */
  lemma NaiveStringAscends(a: nat, b: nat)
    requires a < b < YEAR_10000
    ensures TextLess(NaiveString(a), NaiveString(b))
  {
    NaiveParts(a);
    NaiveParts(b);
    DayAndSecond(a, b);
    if a / 86_400 < b / 86_400 {
      CivilDateAscends(a / 86_400, b / 86_400);
    }
    StampAscends(CivilDate(a / 86_400), CivilDate(b / 86_400), a % 86_400, b % 86_400);
  }

  // ---- what a text says

  /** A date and a time of day, as numbers. */
  datatype Stamp = Stamp(year: nat, month: nat, day: nat, hour: nat, minute: nat, second: nat)

  predicate Field(s: string, n: nat) { IsNatText(s) && NatValue(s) == n }

  /** The text is `yyyy-mm-dd hh:mm:ss`, the year in four digits or more, with these numbers. */
  predicate Says(text: string, at: Stamp)
  {
    && |text| >= 19
    && var n := |text| - 15;
    && Field(text[..n], at.year)
    && text[n] == '-' && Field(text[n + 1..n + 3], at.month)
    && text[n + 3] == '-' && Field(text[n + 4..n + 6], at.day)
    && text[n + 6] == ' ' && Field(text[n + 7..n + 9], at.hour)
    && text[n + 9] == ':' && Field(text[n + 10..n + 12], at.minute)
    && text[n + 12] == ':' && Field(text[n + 13..], at.second)
  }

  /** A time of day that there is, on a date that there is. */
  predicate IsStamp(at: Stamp)
  {
    IsDate(at.year, at.month, at.day) && at.hour < 24 && at.minute < 60 && at.second < 60
  }

  /** Seconds from the start of 1970. */
  function SecondsTo(at: Stamp): int
    requires IsStamp(at)
  {
    DayNumber(at.year, at.month, at.day) * 86_400 + at.hour * 3600 + at.minute * 60 + at.second
  }

  lemma {:induction false} ZerosCountNothing(k: nat, text: string)
    requires IsNatText(text)
    ensures Field(seq(k, _ => '0') + text, NatValue(text))
    decreases |text|
  {
    var whole := seq(k, _ => '0') + text;
    var last := |text| - 1;
    assert whole[..|whole| - 1] == seq(k, _ => '0') + text[..last];
    if last == 0 {
      assert seq(k, _ => '0') + text[..last] == seq(k, _ => '0');
      OnlyZeros(k);
    } else {
      ZerosCountNothing(k, text[..last]);
    }
  }

  lemma {:induction false} OnlyZeros(k: nat)
    ensures NatValue(seq(k, _ => '0')) == 0
  {
    if k > 0 {
      OnlyZeros(k - 1);
      assert seq(k, _ => '0')[..k - 1] == seq(k - 1, _ => '0');
    }
  }

  lemma PaddedSays(n: nat, w: nat)
    ensures Field(Padded(n, w), n)
  {
    NatRoundTrip(n);
    var text := NatText(n);
    ZerosCountNothing(if |text| < w then w - |text| else 0, text);
  }

  lemma TimePart(h: string, i: string, s: string)
    requires |h| == |i| == |s| == 2
    ensures var t := h + (":" + (i + (":" + s)));
            |t| == 8 && t[..2] == h && t[2] == ':' && t[3..5] == i && t[5] == ':' && t[6..] == s
  {
  }

  lemma DatePart(m: string, d: string, t: string)
    requires |m| == |d| == 2
    ensures var r := "-" + (m + ("-" + (d + (" " + t))));
            |r| == 7 + |t| && r[0] == '-' && r[1..3] == m && r[3] == '-' && r[4..6] == d && r[6] == ' ' && r[7..] == t
  {
  }

  /** All after the year, piece by piece. */
  lemma RestIs(m: string, d: string, h: string, i: string, s: string)
    requires |m| == |d| == |h| == |i| == |s| == 2
    ensures var r := "-" + (m + ("-" + (d + (" " + (h + (":" + (i + (":" + s))))))));
            && |r| == 15 && r[0] == '-' && r[3] == '-' && r[6] == ' ' && r[9] == ':' && r[12] == ':'
            && r[1..3] == m && r[4..6] == d && r[7..9] == h && r[10..12] == i && r[13..15] == s
  {
    var t := h + (":" + (i + (":" + s)));
    TimePart(h, i, s);
    DatePart(m, d, t);
    var r := "-" + (m + ("-" + (d + (" " + t))));
    assert r[7..9] == r[7..][..2] && r[10..12] == r[7..][3..5] && r[13..15] == r[7..][6..];
    assert r[9] == r[7..][2] && r[12] == r[7..][5];
  }

  lemma SliceAfter(y: string, r: string, a: nat, b: nat)
    requires a <= b <= |r|
    ensures (y + r)[|y| + a..|y| + b] == r[a..b]
  {
  }

  lemma WholeSays(y: string, r: string, at: Stamp)
    requires |y| >= 4 && |r| == 15
    requires r[0] == '-' && r[3] == '-' && r[6] == ' ' && r[9] == ':' && r[12] == ':'
    requires Field(y, at.year) && Field(r[1..3], at.month) && Field(r[4..6], at.day)
    requires Field(r[7..9], at.hour) && Field(r[10..12], at.minute) && Field(r[13..15], at.second)
    ensures Says(y + r, at)
  {
    SliceAfter(y, r, 1, 3);
    SliceAfter(y, r, 4, 6);
    SliceAfter(y, r, 7, 9);
    SliceAfter(y, r, 10, 12);
    SliceAfter(y, r, 13, 15);
    assert (y + r)[..|y|] == y && (y + r)[|y| + 13..] == (y + r)[|y| + 13..|y| + 15];
  }

  lemma TwoDigits(n: nat)
    requires n < 100
    ensures |Padded(n, 2)| == 2
  {
    assert Pow10(2) == 100;
    FieldLength(n, 2);
  }

  lemma YearDigits(y: nat)
    ensures |Padded(y, 4)| >= 4 && (y < 10_000 ==> |Padded(y, 4)| == 4)
  {
    if y < 10_000 {
      assert Pow10(4) == 10_000;
      FieldLength(y, 4);
    }
  }

  lemma FromEpoch(days: nat, epoch: int)
    requires epoch == 1970
    ensures CivilDate(days).0 >= epoch
  {
    CivilDateCounts(days);
    DaysToYearIs(epoch);
    var date := CivilDate(days);
    YearsBefore(epoch, date.0, date.1, date.2);
  }

  lemma ClockAddsUp(day: nat)
    requires day < 86_400
    ensures day / 3600 < 24 && day / 3600 * 3600 + day / 60 % 60 * 60 + day % 60 == day
  {
    HourOf(day);
  }

  /** The numbers, as the source prints them. */
  function StampText(at: Stamp): string
  {
    Padded(at.year, 4) + ("-" + (Padded(at.month, 2) + ("-" + (Padded(at.day, 2) + (" " + (Padded(at.hour, 2)
    + (":" + (Padded(at.minute, 2) + (":" + Padded(at.second, 2))))))))))
  }

  lemma StampTextSays(at: Stamp)
    requires IsStamp(at)
    ensures Says(StampText(at), at) && (at.year < 10_000 ==> |StampText(at)| == 19)
  {
    var m, d, h, i, s :=
      Padded(at.month, 2), Padded(at.day, 2), Padded(at.hour, 2), Padded(at.minute, 2), Padded(at.second, 2);
    YearDigits(at.year);
    TwoDigits(at.month);
    TwoDigits(at.day);
    TwoDigits(at.hour);
    TwoDigits(at.minute);
    TwoDigits(at.second);
    RestIs(m, d, h, i, s);
    PaddedSays(at.year, 4);
    PaddedSays(at.month, 2);
    PaddedSays(at.day, 2);
    PaddedSays(at.hour, 2);
    PaddedSays(at.minute, 2);
    PaddedSays(at.second, 2);
    WholeSays(Padded(at.year, 4), "-" + (m + ("-" + (d + (" " + (h + (":" + (i + (":" + s)))))))), at);
  }

  lemma DateOf(days: nat)
    requires days <= LAST_DAY
    ensures var (y, m, d) := DaysToYmd(days); y >= 1970 && IsDate(y, m, d) && DayNumber(y, m, d) == days
    ensures days < YEAR_10000 / 86_400 ==> DaysToYmd(days).0 < 10_000
  {
    DaysToYmdRightIff(days);
    CivilDateCounts(days);
    FromEpoch(days, 1970);
    var (y, m, d) := DaysToYmd(days);
    CivilDateInverts(y, m, d);
    if days < YEAR_10000 / 86_400 {
      FourDigits(days, CivilDate(days), 1970, 10_000);
    }
  }

  lemma StampOf(secs: nat) returns (at: Stamp)
    requires secs / 86_400 <= LAST_DAY
    ensures NaiveString(secs) == StampText(at) && IsStamp(at) && SecondsTo(at) == secs
    ensures secs < YEAR_10000 ==> at.year < 10_000
  {
    var day := secs % 86_400;
    DateOf(secs / 86_400);
    var (y, m, d) := DaysToYmd(secs / 86_400);
    ClockAddsUp(day);
    at := Stamp(y, m, d, day / 3600, day / 60 % 60, day % 60);
  }

  /** The text of a second is that of a date and time that there is, and of that very second;
      for as long as the year fits the source's 32 bits. */
  lemma NaiveStringSays(secs: nat) returns (at: Stamp)
    requires secs / 86_400 <= LAST_DAY
    ensures Says(NaiveString(secs), at) && IsStamp(at) && SecondsTo(at) == secs
    ensures secs < YEAR_10000 ==> |NaiveString(secs)| == 19
  {
    at := StampOf(secs);
    StampTextSays(at);
  }
}
