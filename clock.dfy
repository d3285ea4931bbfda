/**
 * Wall-clock times as the components see them through JavaScript's Date, and
 * the en-US 12-hour labels that `toLocaleTimeString` produces for them.
 */
module Clock {
  import opened Text
  import opened Wrappers

  /**
   * A broken-down local time, field by field as Date's getters report it:
   * getFullYear, getMonth (0 = January), getDate (1-31), getHours,
   * getMinutes, getSeconds.
   */
  datatype DateTime = DateTime(year: int, month: int, day: int, hour: int, minute: int, second: int)

  predicate InRange(t: DateTime) {
    0 <= t.month < 12 && 1 <= t.day <= 31 && 0 <= t.hour < 24 && 0 <= t.minute < 60 && 0 <= t.second < 60
  }

  /** A time a valid Date can denote: every getter is within its range. */
  type Moment = t: DateTime | InRange(t) witness DateTime(1970, 0, 1, 0, 0, 0)

  /** What `new Date(text)` yields: a moment, or the Invalid Date (every getter NaN). */
  datatype Stamp = InvalidDate | At(moment: Moment)

  /** What `toLocaleTimeString` and `toLocaleDateString` return for the Invalid Date. */
  const InvalidDateText := "Invalid Date"

  /** The character between the minutes and the day period in an en-US label. */
  const PeriodSeparator: char := ' '

  /** The hour on a 12-hour clock (`hour12: true`): 0 and 12 both read 12. */
  function Hour12(hour: nat): (h: nat)
    requires hour < 24
    ensures 1 <= h <= 12 && h % 12 == hour % 12
  {
    if hour % 12 == 0 then 12 else hour % 12
  }

  function Period(hour: nat): string {
    if hour < 12 then "AM" else "PM"
  }

  /** The 24-hour hour that a 12-hour hour and a day period denote. */
  function To24(h12: nat, pm: bool): (hour: nat)
    requires 1 <= h12 <= 12
    ensures hour < 24 && Hour12(hour) == h12 && (pm <==> hour >= 12)
  {
    if h12 == 12 then (if pm then 12 else 0) else (if pm then h12 + 12 else h12)
  }

  /** en-US `toLocaleTimeString` with `hour: "numeric", minute: "2-digit", hour12: true`. */
  function TimeLabel(t: Moment): (s: string)
    ensures 7 <= |s| <= 8
    ensures s[0] != '0'
    ensures |s| == 7 <==> Hour12(t.hour) < 10
  {
    Decimal(Hour12(t.hour)) + ":" + TwoDigits(t.minute) + [PeriodSeparator] + Period(t.hour)
  }

  /** en-US `toLocaleTimeString` with `hour: "2-digit", minute: "2-digit"` (a 12-hour clock in en-US). */
  function PaddedTimeLabel(t: Moment): (s: string)
    ensures |s| == 8
  {
    TwoDigits(Hour12(t.hour)) + ":" + TwoDigits(t.minute) + [PeriodSeparator] + Period(t.hour)
  }

  /** The `hour: "numeric"` label of a Date: the unpadded label, or "Invalid Date". */
  function StampLabel(s: Stamp): (text: string)
    ensures 7 <= |text|
    ensures s.InvalidDate? ==> text == InvalidDateText
    ensures s.At? ==> text == TimeLabel(s.moment)
  {
    match s
    case InvalidDate => InvalidDateText
    case At(t) => TimeLabel(t)
  }

  /** The `hour: "2-digit"` label of a Date: the padded label, or "Invalid Date". */
  function PaddedStampLabel(s: Stamp): (text: string)
    ensures s.InvalidDate? ==> text == InvalidDateText
    ensures s.At? ==> text == PaddedTimeLabel(s.moment)
  {
    match s
    case InvalidDate => InvalidDateText
    case At(t) => PaddedTimeLabel(t)
  }

  /**
   * Reads a label "h:mm AM" or "hh:mm PM" at the front of s and gives the
   * 24-hour hour, the minute and what follows the label.
   */
  function ReadTimeLabel(s: string): Option<(nat, nat, string)> {
    ReadTimeLabelOfWidth(s, if |s| >= 2 && s[1] == ':' then 1 else 2)
  }

  /** ReadTimeLabel once the width of the hour field is known. */
  function ReadTimeLabelOfWidth(s: string, w: nat): Option<(nat, nat, string)> {
    if |s| < w + 6 then None
    else if !(AllDigits(s[..w]) && s[w] == ':' && AllDigits(s[w + 1..w + 3]) && s[w + 3] == PeriodSeparator) then None
    else
      var h12 := ParseDecimal(s[..w]);
      var minute := ParseDecimal(s[w + 1..w + 3]);
      var period := s[w + 4..w + 6];
      if 1 <= h12 <= 12 && minute < 60 && (period == "AM" || period == "PM") then
        Some((To24(h12, period == "PM"), minute, s[w + 6..]))
      else None
  }

  lemma HourComesBack(hour: nat)
    requires hour < 24
    ensures To24(Hour12(hour), Period(hour) == "PM") == hour
  {
  }

  /** Where the pieces of a label sit in it. */
  lemma LabelPieces(s: string, hd: string, mm: string, p: string, rest: string)
    requires |mm| == 2 && |p| == 2 && s == hd + ":" + mm + [PeriodSeparator] + p + rest
    ensures var w := |hd|;
      && |s| >= w + 6 && s[..w] == hd && s[w] == ':' && s[w + 1..w + 3] == mm && s[w + 3] == PeriodSeparator
      && s[w + 4..w + 6] == p && s[w + 6..] == rest
  {
  }

  /** The shared tail of both labels: ":mm", the separator and the period. */
  lemma ReadAfterHour(hd: string, t: Moment, rest: string)
    requires |hd| == 1 || |hd| == 2
    requires AllDigits(hd) && ParseDecimal(hd) == Hour12(t.hour)
    ensures ReadTimeLabel(hd + ":" + TwoDigits(t.minute) + [PeriodSeparator] + Period(t.hour) + rest)
         == Some((t.hour, t.minute, rest))
  {
    var mm, p := TwoDigits(t.minute), Period(t.hour);
    var s := hd + ":" + mm + [PeriodSeparator] + p + rest;
    var w := |hd|;
    assert |s| >= w + 6 && s[..w] == hd && s[w] == ':' && s[w + 1..w + 3] == mm && s[w + 3] == PeriodSeparator
        && s[w + 4..w + 6] == p && s[w + 6..] == rest by {
      LabelPieces(s, hd, mm, p, rest);
    }
    assert ReadTimeLabel(s) == ReadTimeLabelOfWidth(s, w) by {
      assert s[1] == if w == 1 then ':' else hd[1];
    }
    HourComesBack(t.hour);
  }

  lemma TimeLabelReadsBack(t: Moment, rest: string)
    ensures ReadTimeLabel(TimeLabel(t) + rest) == Some((t.hour, t.minute, rest))
  {
    var hd := Decimal(Hour12(t.hour));
    DecimalRoundTrip(Hour12(t.hour));
    assert TimeLabel(t) + rest == hd + ":" + TwoDigits(t.minute) + [PeriodSeparator] + Period(t.hour) + rest;
    ReadAfterHour(hd, t, rest);
  }

  lemma PaddedTimeLabelReadsBack(t: Moment, rest: string)
    ensures ReadTimeLabel(PaddedTimeLabel(t) + rest) == Some((t.hour, t.minute, rest))
  {
    var hd := TwoDigits(Hour12(t.hour));
    assert PaddedTimeLabel(t) + rest == hd + ":" + TwoDigits(t.minute) + [PeriodSeparator] + Period(t.hour) + rest;
    ReadAfterHour(hd, t, rest);
  }

  /** Reads "<label> - <label>" back into the two (hour, minute) pairs. */
  function ReadTimeRange(s: string): Option<((nat, nat), (nat, nat))> {
    match ReadTimeLabel(s)
    case None => None
    case Some((h1, m1, rest)) =>
      if |rest| < 3 || rest[..3] != " - " then None
      else
        match ReadTimeLabel(rest[3..])
        case None => None
        case Some((h2, m2, tail)) => if tail == [] then Some(((h1, m1), (h2, m2))) else None
  }

  /** A text whose first label is followed by " - " and a second, final label reads as that range. */
  lemma ReadRangeOf(s: string, first: (nat, nat), second: string, last: (nat, nat))
    requires ReadTimeLabel(s) == Some((first.0, first.1, " - " + second))
    requires ReadTimeLabel(second) == Some((last.0, last.1, []))
    ensures ReadTimeRange(s) == Some((first, last))
  {
    var rest := " - " + second;
    assert rest[..3] == " - " && rest[3..] == second;
  }

  /** A range of two unpadded labels gives back both times. */
  lemma RangeLabelReadsBack(start: Moment, end: Moment)
    ensures ReadTimeRange(TimeLabel(start) + " - " + TimeLabel(end))
         == Some(((start.hour, start.minute), (end.hour, end.minute)))
  {
    var a, b := TimeLabel(start), TimeLabel(end);
    assert ReadTimeLabel(a + " - " + b) == Some((start.hour, start.minute, " - " + b)) by {
      assert a + " - " + b == a + (" - " + b);
      TimeLabelReadsBack(start, " - " + b);
    }
    assert ReadTimeLabel(b) == Some((end.hour, end.minute, [])) by {
      TimeLabelReadsBack(end, []);
      assert b + [] == b;
    }
    ReadRangeOf(a + " - " + b, (start.hour, start.minute), b, (end.hour, end.minute));
  }
}
