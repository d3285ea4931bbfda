/** The reservation history page. */
module History {
  import opened Wrappers
  import opened Clock
  import opened Records
  import opened Uri

  /** The status column's wording of a history action. */
  function FormatAction(action: string): (wording: string)
    ensures action == "create" ==> wording == "Created"
    ensures action == "update" ==> wording == "Updated"
    ensures action == "delete" ==> wording == "Deleted"
    ensures action != "create" && action != "update" && action != "delete" ==> wording == action
  {
    match action
    case "create" => "Created"
    case "update" => "Updated"
    case "delete" => "Deleted"
    case _ => action
  }

  /** A wording is never itself an action name, so formatting twice changes nothing more. */
  lemma FormatActionIdempotent(action: string)
    ensures FormatAction(FormatAction(action)) == FormatAction(action)
  {
  }

  /** Exactly the three known actions are reworded. */
  lemma FormatActionChangesOnlyKnownActions(action: string)
    ensures FormatAction(action) != action <==> action == "create" || action == "update" || action == "delete"
  {
  }

  const AllBuildings := "All"
  const HistoryPath := "/history"
  const BuildingQuery := "/history?building="

  /** The URL the history is fetched from for a building filter. */
  function HistoryUrl(filter: string): (url: string)
    ensures url == HistoryPath <==> filter == AllBuildings
    ensures filter != AllBuildings ==> |url| >= |BuildingQuery| && url[..|BuildingQuery|] == BuildingQuery
    ensures filter != AllBuildings ==> url == BuildingQuery + EncodeURIComponent(filter)
  {
    if filter == AllBuildings then HistoryPath else BuildingQuery + EncodeURIComponent(filter)
  }

  /**
   * A building filter's URL names exactly that building: the query value is
   * URL-safe and decodes back to the filter.
   */
  lemma HistoryUrlNamesBuilding(filter: string)
    requires filter != AllBuildings
    ensures var value := HistoryUrl(filter)[|BuildingQuery|..];
      && (forall i :: 0 <= i < |value| ==> UrlSafe(value[i]))
      && DecodeURIComponent(value) == Some(filter)
  {
    assert HistoryUrl(filter)[|BuildingQuery|..] == EncodeURIComponent(filter);
    DecodeEncoded(filter);
  }

  /** A filter with a space: the space is escaped and the letters are kept. */
  lemma HistoryUrlOfSpacedName()
    ensures HistoryUrl("O N") == "/history?building=O%20N"
  {
    SpacedNameEncodes();
    assert BuildingQuery + "O%20N" == "/history?building=O%20N";
  }

  /** `encodeURIComponent("O N")` is "O%20N". */
  lemma SpacedNameEncodes()
    ensures EncodeURIComponent("O N") == "O%20N"
  {
    var o, space, n := EncodeURIComponent("O"), EncodeURIComponent(" "), EncodeURIComponent("N");
    assert o == "O" && n == "N" && space == "%20" by {
      LettersAndSpaceEncode();
    }
    assert EncodeURIComponent("O N") == o + (space + n) by {
      assert "O N" == "O" + (" " + "N");
      EncodeAppend(" ", "N");
      EncodeAppend("O", " " + "N");
    }
  }

  /** The two letters of the example stand for themselves, and the space is "%20". */
  lemma LettersAndSpaceEncode()
    ensures EncodeURIComponent("O") == "O" && EncodeURIComponent("N") == "N"
    ensures EncodeURIComponent(" ") == "%20"
  {
    assert EncodeURIComponent(" ") == PercentBytes(Utf8(' ' as int));
    assert Utf8(' ' as int) == [32];
    assert PercentBytes([32]) == ['%', HexDigit(2), HexDigit(0)] + PercentBytes([]);
  }

  const NoHistoryText := "No history available"

  datatype HistoryRow =
    | EntryRow(key: string, id: string, building: string, date: string, startTime: string,
               endTime: string, user: string, status: string, shade: string)
    | NoHistoryRow(message: string)

  /** `new Date(text).toLocaleDateString()`, given the locale's date rendering of a valid moment. */
  function LocaleDate(s: Stamp, localeDate: Moment -> string): (text: string)
    ensures s.InvalidDate? ==> text == InvalidDateText
    ensures s.At? ==> text == localeDate(s.moment)
  {
    match s
    case InvalidDate => InvalidDateText
    case At(t) => localeDate(t)
  }

  /** `field ? render(new Date(field)) : "N/A"`. */
  function WhenPresent(field: Option<string>, parse: string -> Stamp, render: Stamp -> string): (text: string)
    ensures !Truthy(field) ==> text == NotAvailable
    ensures Truthy(field) ==> text == render(parse(field.value))
  {
    if Truthy(field) then render(parse(field.value)) else NotAvailable
  }

  /**
   * The row of one entry at position `index`: its id, the building or "N/A",
   * the start's date and time and the end's time when present, the user
   * (empty when missing), the action's wording and the stripe.
   */
  function EntryRowOf(entry: HistoryEntry, index: nat, parse: string -> Stamp, localeDate: Moment -> string): (row: HistoryRow)
    ensures row.EntryRow? && row.id == entry.eventId && row.status == FormatAction(entry.action) && row.shade == Shade(index)
    ensures row.key == entry.eventId + "-" + entry.timestamp
    ensures row.building == if Truthy(entry.details.building) then entry.details.building.value else NotAvailable
    ensures !Truthy(entry.details.start) ==> row.date == NotAvailable && row.startTime == NotAvailable
    ensures Truthy(entry.details.start) ==> row.date == LocaleDate(parse(entry.details.start.value), localeDate)
    ensures Truthy(entry.details.start) ==> row.startTime == PaddedStampLabel(parse(entry.details.start.value))
    ensures !Truthy(entry.details.end) ==> row.endTime == NotAvailable
    ensures Truthy(entry.details.end) ==> row.endTime == PaddedStampLabel(parse(entry.details.end.value))
    ensures Truthy(entry.userName) ==> row.user == entry.userName.value
    ensures !Truthy(entry.userName) ==> row.user == ""
  {
    var details := entry.details;
    EntryRow(
      entry.eventId + "-" + entry.timestamp,
      entry.eventId,
      OrElse(details.building, NotAvailable),
      WhenPresent(details.start, parse, s => LocaleDate(s, localeDate)),
      WhenPresent(details.start, parse, PaddedStampLabel),
      WhenPresent(details.end, parse, PaddedStampLabel),
      OrElse(entry.userName, ""),
      FormatAction(entry.action),
      Shade(index))
  }

  /** An entry without `eventDetails` shows "N/A" in its building, date, start and end columns. */
  lemma MissingDetailsShowNotAvailable(entry: HistoryEntry, index: nat, parse: string -> Stamp,
                                       localeDate: Moment -> string, parseJson: string -> Details)
    requires DetailsParsed(entry, parseJson) && !Truthy(entry.eventDetails)
    ensures var row := EntryRowOf(entry, index, parse, localeDate);
      && row.building == NotAvailable && row.date == NotAvailable
      && row.startTime == NotAvailable && row.endTime == NotAvailable
  {
  }

  /**
   * The table body. `parse` stands for `new Date(text)`, `localeDate` for
   * `toLocaleDateString()` on a valid date.
   */
  function HistoryRows(history: seq<HistoryEntry>, parse: string -> Stamp, localeDate: Moment -> string): (rows: seq<HistoryRow>)
    ensures history == [] ==> rows == [NoHistoryRow(NoHistoryText)]
    ensures history != [] ==> |rows| == |history|
    ensures forall i :: 0 <= i < |history| ==> rows[i] == EntryRowOf(history[i], i, parse, localeDate)
  {
    if history == [] then [NoHistoryRow(NoHistoryText)]
    else seq(|history|, i requires 0 <= i < |history| => EntryRowOf(history[i], i, parse, localeDate))
  }

  /**
   * One row per entry in order, with "N/A" exactly where the building, the
   * start or the end is missing or empty, padded 12-hour times that read
   * back to the entry's own times, and the action's wording; a single
   * message row for an empty history.
   */
  lemma HistoryRowsShowEachEntry(history: seq<HistoryEntry>, parse: string -> Stamp, localeDate: Moment -> string)
    ensures var rows := HistoryRows(history, parse, localeDate);
      && (history == [] ==> rows == [NoHistoryRow(NoHistoryText)])
      && (history != [] ==> |rows| == |history|)
      && forall i :: 0 <= i < |history| ==>
        var e, row := history[i], rows[i];
        && row.EntryRow?
        && row.id == e.eventId
        && row.status == FormatAction(e.action)
        && row.shade == Shade(i)
        && (!Truthy(e.details.building) ==> row.building == NotAvailable)
        && (Truthy(e.details.building) ==> row.building == e.details.building.value)
        && (!Truthy(e.details.start) ==> row.date == NotAvailable && row.startTime == NotAvailable)
        && (Truthy(e.details.start) ==> row.date == LocaleDate(parse(e.details.start.value), localeDate))
        && (!Truthy(e.details.end) ==> row.endTime == NotAvailable)
        && (Truthy(e.details.start) && parse(e.details.start.value).At? ==>
              var t := parse(e.details.start.value).moment;
              ReadTimeLabel(row.startTime) == Some((t.hour, t.minute, "")))
        && (Truthy(e.details.end) && parse(e.details.end.value).At? ==>
              var t := parse(e.details.end.value).moment;
              ReadTimeLabel(row.endTime) == Some((t.hour, t.minute, "")))
  {
    var rows := HistoryRows(history, parse, localeDate);
    forall i | 0 <= i < |history|
      ensures var e, row := history[i], rows[i];
        && (Truthy(e.details.start) && parse(e.details.start.value).At? ==>
              var t := parse(e.details.start.value).moment;
              ReadTimeLabel(row.startTime) == Some((t.hour, t.minute, "")))
        && (Truthy(e.details.end) && parse(e.details.end.value).At? ==>
              var t := parse(e.details.end.value).moment;
              ReadTimeLabel(row.endTime) == Some((t.hour, t.minute, "")))
    {
      var e := history[i];
      if Truthy(e.details.start) && parse(e.details.start.value).At? {
        var t := parse(e.details.start.value).moment;
        PaddedTimeLabelReadsBack(t, "");
        assert PaddedTimeLabel(t) + "" == PaddedTimeLabel(t);
      }
      if Truthy(e.details.end) && parse(e.details.end.value).At? {
        var t := parse(e.details.end.value).moment;
        PaddedTimeLabelReadsBack(t, "");
        assert PaddedTimeLabel(t) + "" == PaddedTimeLabel(t);
      }
    }
  }

  /** The page's state: the mobile menu, the fetched history and the building filter. */
  class HistoryView {
    var isMenuOpen: bool
    var history: seq<HistoryEntry>
    var filterBuilding: string

    constructor ()
      ensures !isMenuOpen && history == [] && filterBuilding == AllBuildings
    {
      isMenuOpen, history, filterBuilding := false, [], AllBuildings;
    }

    /** The URL the next fetch uses. */
    function Url(): (url: string)
      reads this
      ensures url == HistoryUrl(filterBuilding)
      ensures url == HistoryPath <==> filterBuilding == AllBuildings
    {
      HistoryUrl(filterBuilding)
    }

    /** `toggleMenu`: the burger button. */
    method ToggleMenu()
      modifies this
      ensures isMenuOpen == !old(isMenuOpen)
      ensures history == old(history) && filterBuilding == old(filterBuilding)
    {
      isMenuOpen := !isMenuOpen;
    }

    /** A menu item was chosen: `setIsMenuOpen(false)`. */
    method CloseMenu()
      modifies this
      ensures !isMenuOpen
      ensures history == old(history) && filterBuilding == old(filterBuilding)
    {
      isMenuOpen := false;
    }

    /** `setHistory(res.data)` once a fetch succeeds. */
    method ReceiveHistory(entries: seq<HistoryEntry>)
      modifies this
      ensures history == entries
      ensures isMenuOpen == old(isMenuOpen) && filterBuilding == old(filterBuilding)
    {
      history := entries;
    }

    /** The filter select: `setFilterBuilding(e.target.value)`. */
    method SelectBuilding(building: string)
      modifies this
      ensures filterBuilding == building && Url() == HistoryUrl(building)
      ensures isMenuOpen == old(isMenuOpen) && history == old(history)
    {
      filterBuilding := building;
    }
  }

  /** Toggling the menu twice leaves the page as it was. */
  method ToggleTwice(view: HistoryView)
    modifies view
    ensures view.isMenuOpen == old(view.isMenuOpen)
    ensures view.history == old(view.history) && view.filterBuilding == old(view.filterBuilding)
  {
    view.ToggleMenu();
    view.ToggleMenu();
  }
}
