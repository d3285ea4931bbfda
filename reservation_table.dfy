/** The table of one day's reservations on the dashboard. */
module ReservationTable {
  import opened Wrappers
  import opened Clock
  import opened Records

  const AllDayText := "All Day"
  const NoReservationsText := "No reservations for this day"

  /**
   * A reservation counts as all-day when it starts at 08:00 and ends at 23:00
   * by hours and minutes only; an Invalid Date never matches, since its
   * getters give NaN.
   */
  predicate IsAllDay(r: Reservation)
    ensures IsAllDay(r) ==> r.start.At? && r.end.At?
  {
    && r.start.At? && r.start.moment.hour == 8 && r.start.moment.minute == 0
    && r.end.At? && r.end.moment.hour == 23 && r.end.moment.minute == 0
  }

  /** The text of the Time column. */
  function TimeDisplay(r: Reservation): (text: string)
    ensures IsAllDay(r) ==> text == AllDayText
    ensures !IsAllDay(r) ==> |text| >= 17 && text == StampLabel(r.start) + " - " + StampLabel(r.end)
  {
    if IsAllDay(r) then AllDayText else StampLabel(r.start) + " - " + StampLabel(r.end)
  }

  /** The Time column reads "All Day" exactly for the all-day reservations. */
  lemma AllDayExactly(r: Reservation)
    ensures TimeDisplay(r) == AllDayText <==> IsAllDay(r)
  {
    if !IsAllDay(r) {
      assert |TimeDisplay(r)| >= 17;
    }
  }

  /** A timed reservation's label gives back both of its times. */
  lemma TimeRangeReadsBack(r: Reservation)
    requires !IsAllDay(r) && r.start.At? && r.end.At?
    ensures ReadTimeRange(TimeDisplay(r))
         == Some(((r.start.moment.hour, r.start.moment.minute), (r.end.moment.hour, r.end.moment.minute)))
  {
    RangeLabelReadsBack(r.start.moment, r.end.moment);
  }

  /** Seconds, dates and everything but the four hour and minute fields are not examined. */
  lemma AllDayLooksAtHoursAndMinutesOnly(r: Reservation, s: Reservation)
    requires r.start.At? && s.start.At? && r.end.At? && s.end.At?
    requires r.start.moment.hour == s.start.moment.hour && r.start.moment.minute == s.start.moment.minute
    requires r.end.moment.hour == s.end.moment.hour && r.end.moment.minute == s.end.moment.minute
    ensures IsAllDay(r) == IsAllDay(s)
  {
  }

  datatype TableRow =
    | ReservationRow(key: string, owner: string, time: string, shade: string)
    | EmptyRow(message: string)

  /** The table body for the day's reservations, in the order given. */
  function Rows(rs: seq<Reservation>): (rows: seq<TableRow>)
    ensures |rows| == if rs == [] then 1 else |rs|
    ensures forall i :: 0 <= i < |rows| ==> (rows[i].EmptyRow? <==> rs == [])
  {
    if rs == [] then [EmptyRow(NoReservationsText)]
    else seq(|rs|, i requires 0 <= i < |rs| => ReservationRow(rs[i].id, rs[i].ownerName, TimeDisplay(rs[i]), Shade(i)))
  }

  /**
   * One row per reservation, in input order and keyed by its id, striped
   * by `Shade`; the Time column is `TimeDisplay`, so "All Day" exactly on
   * the all-day ones; a single message row
   * when there is nothing to show.
   */
  lemma RowsShowEachReservation(rs: seq<Reservation>)
    ensures rs == [] ==> Rows(rs) == [EmptyRow(NoReservationsText)]
    ensures rs != [] ==> |Rows(rs)| == |rs|
    ensures forall i :: 0 <= i < |rs| ==>
      && Rows(rs)[i].ReservationRow?
      && Rows(rs)[i].key == rs[i].id
      && Rows(rs)[i].owner == rs[i].ownerName
      && Rows(rs)[i].time == TimeDisplay(rs[i])
      && (Rows(rs)[i].time == AllDayText <==> IsAllDay(rs[i]))
      && Rows(rs)[i].shade == Shade(i)
  {
    forall i | 0 <= i < |rs|
      ensures Rows(rs)[i].time == AllDayText <==> IsAllDay(rs[i])
    {
      AllDayExactly(rs[i]);
    }
  }
}
