/**
 * The Excel export: one sheet per building holding a day-by-month grid of
 * the current year's reservation times, and a sheet of the current year's
 * history.
 */
module ExportExcel {
  import opened Wrappers
  import opened Text
  import opened Clock
  import opened Records
  import opened Spreadsheet

  const Days := 31
  const Months := 12

  /** `formatReservationTime`: the en-US 12-hour start and end, joined by " - ". */
  function ReservationTime(r: Reservation): (s: string)
    ensures |s| >= 17 && s == StampLabel(r.start) + " - " + StampLabel(r.end)
  {
    StampLabel(r.start) + " - " + StampLabel(r.end)
  }

  /** The export label of a reservation with valid dates gives back its start and end times. */
  lemma ReservationTimeReadsBack(r: Reservation)
    requires r.start.At? && r.end.At?
    ensures ReadTimeRange(ReservationTime(r))
         == Some(((r.start.moment.hour, r.start.moment.minute), (r.end.moment.hour, r.end.moment.minute)))
  {
    RangeLabelReadsBack(r.start.moment, r.end.moment);
  }

  predicate InYear(r: Reservation, year: int) {
    r.start.At? && r.start.moment.year == year
  }

  /** `reservations.filter(...)`: those whose start falls in the given year, in order. */
  function CurrentYearReservations(rs: seq<Reservation>, year: int): (kept: seq<Reservation>)
    ensures |kept| <= |rs|
    ensures forall r :: r in kept <==> r in rs && InYear(r, year)
  {
    if rs == [] then []
    else (if InYear(rs[0], year) then [rs[0]] else []) + CurrentYearReservations(rs[1..], year)
  }

  lemma {:induction false} CurrentYearAppend(a: seq<Reservation>, b: seq<Reservation>, year: int)
    ensures CurrentYearReservations(a + b, year) == CurrentYearReservations(a, year) + CurrentYearReservations(b, year)
  {
    if a == [] {
      assert a + b == b;
    } else {
      assert (a + b)[1..] == a[1..] + b;
      CurrentYearAppend(a[1..], b, year);
    }
  }

  /** The grid of cell texts: Days rows (day of month - 1) by Months columns (month from 0). */
  type Grid = seq<seq<string>>

  predicate IsGrid(g: Grid) {
    |g| == Days && forall d :: 0 <= d < Days ==> |g[d]| == Months
  }

  /** `Array.from({ length: 31 }, () => Array(12).fill(""))`. */
  function EmptyGrid(): (g: Grid)
    ensures IsGrid(g)
    ensures forall d, m :: 0 <= d < Days && 0 <= m < Months ==> g[d][m] == ""
  {
    seq(Days, d => seq(Months, m => ""))
  }

  /**
   * The cell a reservation is written to: its day of month - 1 and its
   * month, when in the grid. A valid start always lands in the grid, so the
   * bounds test drops only the Invalid Date.
   */
  function Slot(r: Reservation): (slot: Option<(nat, nat)>)
    ensures slot.Some? <==> r.start.At?
    ensures slot.Some? ==> slot.value == (r.start.moment.day - 1, r.start.moment.month)
    ensures slot.Some? ==> slot.value.0 < Days && slot.value.1 < Months
  {
    if r.start.At? && 0 <= r.start.moment.day - 1 < Days && 0 <= r.start.moment.month < Months then
      Some((r.start.moment.day - 1, r.start.moment.month))
    else None
  }

  /** `data[day][month] ? `${data[day][month]}, ${timeDisplay}` : timeDisplay`. */
  function Combine(cell: string, time: string): (joined: string)
    ensures cell == "" ==> joined == time
    ensures cell != "" ==>
      && |joined| == |cell| + 2 + |time| && joined[..|cell|] == cell
      && joined[|cell|..|cell| + 2] == ", " && joined[|cell| + 2..] == time
  {
    if cell != "" then cell + ", " + time else time
  }

  /** The grid after one reservation: only its own cell changes. */
  function Place(g: Grid, r: Reservation): (h: Grid)
    requires IsGrid(g)
    ensures IsGrid(h)
    ensures forall d, m :: 0 <= d < Days && 0 <= m < Months ==>
      h[d][m] == if Slot(r) == Some((d, m)) then Combine(g[d][m], ReservationTime(r)) else g[d][m]
  {
    match Slot(r)
    case None => g
    case Some((d, m)) => g[d := g[d][m := Combine(g[d][m], ReservationTime(r))]]
  }

  /** The grid after the reservations, placed in order. */
  function Fill(g: Grid, rs: seq<Reservation>): (h: Grid)
    requires IsGrid(g)
    ensures IsGrid(h)
    decreases |rs|
  {
    if rs == [] then g else Place(Fill(g, rs[..|rs| - 1]), rs[|rs| - 1])
  }

  /** A cell that none of the reservations lands in keeps its value. */
  lemma {:induction false} FillLeavesOtherCells(g: Grid, rs: seq<Reservation>, d: nat, m: nat)
    requires IsGrid(g) && d < Days && m < Months
    requires forall i :: 0 <= i < |rs| ==> Slot(rs[i]) != Some((d, m))
    ensures Fill(g, rs)[d][m] == g[d][m]
    decreases |rs|
  {
    if rs != [] {
      FillLeavesOtherCells(g, rs[..|rs| - 1], d, m);
    }
  }

  /** The time labels of the reservations that land in cell (d, m), in input order. */
  function LabelsAt(rs: seq<Reservation>, d: nat, m: nat): (labels: seq<string>)
    ensures forall i :: 0 <= i < |labels| ==> labels[i] != ""
    decreases |rs|
  {
    if rs == [] then []
    else
      var last := rs[|rs| - 1];
      LabelsAt(rs[..|rs| - 1], d, m) + (if Slot(last) == Some((d, m)) then [ReservationTime(last)] else [])
  }

  /** The labels joined by ", ". */
  function JoinLabels(labels: seq<string>): string
    decreases |labels|
  {
    if labels == [] then ""
    else if |labels| == 1 then labels[0]
    else JoinLabels(labels[..|labels| - 1]) + ", " + labels[|labels| - 1]
  }

  lemma JoinLabelsEmpty(labels: seq<string>)
    requires forall i :: 0 <= i < |labels| ==> labels[i] != ""
    ensures JoinLabels(labels) == "" <==> labels == []
  {
    if |labels| > 1 {
      assert |JoinLabels(labels)| >= |labels[|labels| - 1]| > 0;
    }
  }

  /**
   * Each cell of the filled grid lists, joined by ", ", the time labels of
   * exactly the reservations that start on that day and month, in the order
   * they were given; a cell no reservation lands in stays "".
   */
  lemma {:induction false} FilledCell(rs: seq<Reservation>, d: nat, m: nat)
    requires d < Days && m < Months
    ensures Fill(EmptyGrid(), rs)[d][m] == JoinLabels(LabelsAt(rs, d, m))
    decreases |rs|
  {
    if rs != [] {
      var init, last := rs[..|rs| - 1], rs[|rs| - 1];
      FilledCell(init, d, m);
      var before := LabelsAt(init, d, m);
      if Slot(last) == Some((d, m)) {
        JoinLabelsEmpty(before);
        assert LabelsAt(rs, d, m) == before + [ReservationTime(last)];
        assert (before + [ReservationTime(last)])[..|before|] == before;
      } else {
        assert LabelsAt(rs, d, m) == before;
      }
    }
  }

  /** A reservation from another year changes nothing in the grid, wherever it stands in the input. */
  lemma OtherYearsIgnored(front: seq<Reservation>, r: Reservation, back: seq<Reservation>, year: int)
    requires !InYear(r, year)
    ensures Fill(EmptyGrid(), CurrentYearReservations(front + [r] + back, year))
         == Fill(EmptyGrid(), CurrentYearReservations(front + back, year))
  {
    var none := CurrentYearReservations([r], year);
    assert none == [] by {
      assert [r][1..] == [];
    }
    assert CurrentYearReservations(front + [r], year) == CurrentYearReservations(front, year) by {
      CurrentYearAppend(front, [r], year);
    }
    assert CurrentYearReservations(front + [r] + back, year)
        == CurrentYearReservations(front + [r], year) + CurrentYearReservations(back, year) by {
      CurrentYearAppend(front + [r], back, year);
    }
    assert CurrentYearReservations(front + back, year)
        == CurrentYearReservations(front, year) + CurrentYearReservations(back, year) by {
      CurrentYearAppend(front, back, year);
    }
  }

  /**
   * The body of the `forEach` over the current year's reservations in
   * `createBuildingSheet`: one reservation placed into
   * the array in place, as Place does on the grid it holds.
   */
  method PlaceReservation(data: array2<string>, ghost g: Grid, r: Reservation)
    requires data.Length0 == Days && data.Length1 == Months && IsGrid(g)
    requires forall d, m :: 0 <= d < Days && 0 <= m < Months ==> data[d, m] == g[d][m]
    modifies data
    ensures forall d, m :: 0 <= d < Days && 0 <= m < Months ==> data[d, m] == Place(g, r)[d][m]
  {
    if r.start.At? {
      var day := r.start.moment.day - 1;
      var month := r.start.moment.month;
      if 0 <= day < Days && 0 <= month < Months {
        data[day, month] := if data[day, month] != "" then data[day, month] + ", " + ReservationTime(r) else ReservationTime(r);
      }
    }
  }

  /**
   * The `data` array of `createBuildingSheet`, filled in place by the
   * current year's reservations in input order.
   */
  method BuildGrid(reservations: seq<Reservation>, currentYear: int) returns (data: array2<string>)
    ensures fresh(data) && data.Length0 == Days && data.Length1 == Months
    ensures forall d, m :: 0 <= d < Days && 0 <= m < Months ==>
      data[d, m] == Fill(EmptyGrid(), CurrentYearReservations(reservations, currentYear))[d][m]
  {
    data := new string[Days, Months]((d, m) => "");
    var kept := CurrentYearReservations(reservations, currentYear);
    var i := 0;
    while i < |kept|
      invariant 0 <= i <= |kept|
      invariant forall d, m :: 0 <= d < Days && 0 <= m < Months ==> data[d, m] == Fill(EmptyGrid(), kept[..i])[d][m]
    {
      PlaceReservation(data, Fill(EmptyGrid(), kept[..i]), kept[i]);
      FillStep(kept, i);
      i := i + 1;
    }
    assert kept[..|kept|] == kept;
  }

  /** Filling one more reservation places it on the grid filled so far. */
  lemma FillStep(rs: seq<Reservation>, i: nat)
    requires i < |rs|
    ensures Fill(EmptyGrid(), rs[..i + 1]) == Place(Fill(EmptyGrid(), rs[..i]), rs[i])
  {
    assert rs[..i + 1][..i] == rs[..i];
  }

  const BuildingHeaders := ["Day", "Jan", "Feb", "Mar", "Apr", "May", "Jun", "Jul", "Aug", "Sep", "Oct", "Nov", "Dec"]
  const BuildingTitleRange := "A1:M1"
  const TitleAddress := "A1"
  const HistoryHeaders := ["Action", "Owner", "Building", "Date", "Time", "Scheduled By"]
  const HistoryTitleRange := "A1:F1"
  const HistoryTitle := "Reservation History"

  /** The merged title range spans exactly the header columns, on row 1. */
  lemma TitlesSpanHeaders()
    ensures ParseRange(BuildingTitleRange) == Some(((1, 1), (1, |BuildingHeaders|)))
    ensures ParseRange(HistoryTitleRange) == Some(((1, 1), (1, |HistoryHeaders|)))
    ensures ParseAddress(TitleAddress) == Some((1, 1))
  {
    AddressParses(0, 1);
    AddressParses(12, 1);
    AddressParses(5, 1);
    assert BuildingTitleRange[..2] == Address(0, 1) && BuildingTitleRange[3..] == Address(12, 1);
    assert HistoryTitleRange[..2] == Address(0, 1) && HistoryTitleRange[3..] == Address(5, 1);
    assert TitleAddress == Address(0, 1);
  }

  /** `headers.forEach((header, index) => getCell(`${letter(index)}2`).value = header)`. */
  method WriteHeaders(sheet: Worksheet, headers: seq<string>)
    requires |headers| <= 26
    modifies sheet
    ensures sheet.merges == old(sheet.merges)
    ensures forall p :: p in sheet.cells <==> p in old(sheet.cells) || (p.0 == 2 && 1 <= p.1 <= |headers|)
    ensures forall c :: 1 <= c <= |headers| ==> sheet.cells[(2, c)] == TextValue(headers[c - 1])
    ensures forall p :: p in old(sheet.cells) && !(p.0 == 2 && 1 <= p.1 <= |headers|) ==> sheet.cells[p] == old(sheet.cells)[p]
  {
    var j := 0;
    while j < |headers|
      invariant 0 <= j <= |headers|
      invariant sheet.merges == old(sheet.merges)
      invariant forall p :: p in sheet.cells <==> p in old(sheet.cells) || (p.0 == 2 && 1 <= p.1 <= j)
      invariant forall c :: 1 <= c <= j ==> sheet.cells[(2, c)] == TextValue(headers[c - 1])
      invariant forall p :: p in old(sheet.cells) && !(p.0 == 2 && 1 <= p.1 <= j) ==> sheet.cells[p] == old(sheet.cells)[p]
    {
      AddressParses(j, 2);
      sheet.SetCellAt(Address(j, 2), TextValue(headers[j]));
      j := j + 1;
    }
  }

  /** One grid row r: the day number r + 1 in column 1, month c in column c + 2, all on sheet row r + 3. */
  method WriteGridRow(sheet: Worksheet, data: array2<string>, ghost grid: Grid, r: nat)
    requires data.Length0 == Days && data.Length1 == Months && IsGrid(grid) && r < Days
    requires forall m :: 0 <= m < Months ==> data[r, m] == grid[r][m]
    requires forall p :: p in sheet.cells ==> p.0 < r + 3
    modifies sheet
    ensures sheet.merges == old(sheet.merges)
    ensures forall p :: p in sheet.cells <==> p in old(sheet.cells) || (p.0 == r + 3 && 1 <= p.1 <= Months + 1)
    ensures sheet.cells[(r + 3, 1)] == NumberValue(r + 1)
    ensures forall p: Position :: p.0 == r + 3 && 2 <= p.1 < Months + 2 ==> sheet.cells[p] == TextValue(grid[r][p.1 - 2])
    ensures forall p :: p in old(sheet.cells) ==> sheet.cells[p] == old(sheet.cells)[p]
  {
    sheet.SetCell(r + 3, 1, NumberValue(r + 1));
    var c := 0;
    while c < Months
      invariant 0 <= c <= Months
      invariant sheet.merges == old(sheet.merges)
      invariant forall p :: p in sheet.cells <==> p in old(sheet.cells) || (p.0 == r + 3 && 1 <= p.1 <= c + 1)
      invariant sheet.cells[(r + 3, 1)] == NumberValue(r + 1)
      invariant forall p: Position :: p.0 == r + 3 && 2 <= p.1 < c + 2 ==> sheet.cells[p] == TextValue(grid[r][p.1 - 2])
      invariant forall p :: p in old(sheet.cells) ==> sheet.cells[p] == old(sheet.cells)[p]
    {
      sheet.SetCell(r + 3, c + 2, TextValue(data[r, c]));
      c := c + 1;
    }
  }

  /**
   * The sheet after the grid is written below a sheet whose cells were
   * `before`: rows 3 to 33 hold the day number and the twelve month cells
   * of `grid`, and every earlier cell is kept.
   */
  ghost predicate GridWritten(before: map<Position, CellValue>, after: map<Position, CellValue>, grid: Grid)
    requires IsGrid(grid)
  {
    && (forall p :: p in after <==> p in before || (3 <= p.0 < Days + 3 && 1 <= p.1 <= Months + 1))
    && (forall q :: 3 <= q < Days + 3 ==> after[(q, 1)] == NumberValue(q - 2))
    && (forall q, c :: 3 <= q < Days + 3 && 2 <= c < Months + 2 ==> after[(q, c)] == TextValue(grid[q - 3][c - 2]))
    && (forall p :: p in before ==> after[p] == before[p])
  }

  /** `data.forEach((row, rowIndex) => ...)`: grid row r on sheet row r + 3. */
  method WriteGrid(sheet: Worksheet, data: array2<string>, ghost grid: Grid)
    requires data.Length0 == Days && data.Length1 == Months && IsGrid(grid)
    requires forall d, m :: 0 <= d < Days && 0 <= m < Months ==> data[d, m] == grid[d][m]
    requires forall p :: p in sheet.cells ==> p.0 < 3
    modifies sheet
    ensures sheet.merges == old(sheet.merges)
    ensures GridWritten(old(sheet.cells), sheet.cells, grid)
  {
    var r := 0;
    while r < Days
      invariant 0 <= r <= Days
      invariant sheet.merges == old(sheet.merges)
      invariant forall p :: p in sheet.cells <==>
        p in old(sheet.cells) || (3 <= p.0 < r + 3 && 1 <= p.1 <= Months + 1)
      invariant forall q :: 3 <= q < r + 3 ==> sheet.cells[(q, 1)] == NumberValue(q - 2)
      invariant forall q, c :: 3 <= q < r + 3 && 2 <= c < Months + 2 ==>
        sheet.cells[(q, c)] == TextValue(grid[q - 3][c - 2])
      invariant forall p :: p in old(sheet.cells) ==> sheet.cells[p] == old(sheet.cells)[p]
    {
      WriteGridRow(sheet, data, grid, r);
      r := r + 1;
    }
  }

  /**
   * What a building sheet holds: the title in A1, the headers on row 2,
   * then row d + 3 for day d + 1 with its number in column 1 and the grid's
   * month m in column m + 2; nothing else.
   */
  ghost predicate BuildingSheetLayout(cells: map<Position, CellValue>, building: string, grid: Grid)
    requires IsGrid(grid)
  {
    && (forall p :: p in cells <==>
          p == (1, 1) || (p.0 == 2 && 1 <= p.1 <= |BuildingHeaders|) || (3 <= p.0 < Days + 3 && 1 <= p.1 <= Months + 1))
    && cells[(1, 1)] == TextValue(building + " Reservations")
    && (forall c :: 1 <= c <= |BuildingHeaders| ==> cells[(2, c)] == TextValue(BuildingHeaders[c - 1]))
    && (forall q :: 3 <= q < Days + 3 ==> cells[(q, 1)] == NumberValue(q - 2))
    && (forall q, c :: 3 <= q < Days + 3 && 2 <= c < Months + 2 ==> cells[(q, c)] == TextValue(grid[q - 3][c - 2]))
  }

  /** A sheet holding only its title in A1 and its headers on row 2. */
  ghost predicate TitledHeaders(cells: map<Position, CellValue>, title: string, headers: seq<string>) {
    && (forall p :: p in cells <==> p == (1, 1) || (p.0 == 2 && 1 <= p.1 <= |headers|))
    && cells[(1, 1)] == TextValue(title)
    && (forall c :: 1 <= c <= |headers| ==> cells[(2, c)] == TextValue(headers[c - 1]))
  }

  /**
   * The title and header blocks shared by `createBuildingSheet` and
   * `createHistorySheet`: the title merged over row 1 above the header
   * columns and written to A1, then the headers on row 2.
   */
  method WriteTitle(sheet: Worksheet, range: string, title: string, headers: seq<string>)
    requires sheet.cells == map[] && sheet.merges == []
    requires |headers| <= 26 && ParseRange(range) == Some(((1, 1), (1, |headers|)))
    modifies sheet
    ensures sheet.merges == [((1, 1), (1, |headers|))]
    ensures TitledHeaders(sheet.cells, title, headers)
  {
    TitlesSpanHeaders();
    sheet.MergeCells(range);
    sheet.SetCellAt(TitleAddress, TextValue(title));
    assert sheet.cells == map[(1, 1) := TextValue(title)];
    WriteHeaders(sheet, headers);
  }

  /** The title and headers, then the written grid rows, make up the building sheet's layout. */
  lemma BuildingLayoutFrom(before: map<Position, CellValue>, after: map<Position, CellValue>, building: string, grid: Grid)
    requires IsGrid(grid) && TitledHeaders(before, building + " Reservations", BuildingHeaders)
    requires GridWritten(before, after, grid)
    ensures BuildingSheetLayout(after, building, grid)
  {
  }

  /** `createBuildingSheet(reservations, building, sheetName)`, without the styling. */
  method CreateBuildingSheet(workbook: Workbook, reservations: seq<Reservation>, building: string,
                             sheetName: string, currentYear: int) returns (sheet: Worksheet)
    modifies workbook
    ensures fresh(sheet) && sheet.name == sheetName && workbook.sheets == old(workbook.sheets) + [sheet]
    ensures sheet.merges == [((1, 1), (1, |BuildingHeaders|))]
    ensures BuildingSheetLayout(sheet.cells, building, Fill(EmptyGrid(), CurrentYearReservations(reservations, currentYear)))
  {
    sheet := workbook.AddWorksheet(sheetName);
    var data := BuildGrid(reservations, currentYear);
    ghost var grid := Fill(EmptyGrid(), CurrentYearReservations(reservations, currentYear));
    TitlesSpanHeaders();
    WriteTitle(sheet, BuildingTitleRange, building + " Reservations", BuildingHeaders);
    ghost var before := sheet.cells;
    WriteGrid(sheet, data, grid);
    BuildingLayoutFrom(before, sheet.cells, building, grid);
  }

  /** `details.start || entry.timestamp`: the text the entry's date is read from. */
  function HistoryDate(e: HistoryEntry): (date: string)
    ensures Truthy(e.details.start) ==> date == e.details.start.value
    ensures !Truthy(e.details.start) ==> date == e.timestamp
  {
    OrElse(e.details.start, e.timestamp)
  }

  predicate HistoryInYear(e: HistoryEntry, parse: string -> Stamp, year: int) {
    parse(HistoryDate(e)).At? && parse(HistoryDate(e)).moment.year == year
  }

  /** `history.filter(...)`: the entries whose date falls in the given year, in order. */
  function CurrentYearHistory(history: seq<HistoryEntry>, parse: string -> Stamp, year: int): (kept: seq<HistoryEntry>)
    ensures |kept| <= |history|
    ensures forall e :: e in kept <==> e in history && HistoryInYear(e, parse, year)
  {
    if history == [] then []
    else (if HistoryInYear(history[0], parse, year) then [history[0]] else []) + CurrentYearHistory(history[1..], parse, year)
  }

  /** Filtering a concatenation filters each part, so the kept entries keep the history's order and repeats. */
  lemma {:induction false} CurrentYearHistoryAppend(a: seq<HistoryEntry>, b: seq<HistoryEntry>, parse: string -> Stamp, year: int)
    ensures CurrentYearHistory(a + b, parse, year) == CurrentYearHistory(a, parse, year) + CurrentYearHistory(b, parse, year)
  {
    if a == [] {
      assert a + b == b;
    } else {
      assert (a + b)[1..] == a[1..] + b;
      CurrentYearHistoryAppend(a[1..], b, parse, year);
    }
  }

  /**
   * The values of one history row, `row.values = [...]`. `formatAction`,
   * `formatDate` and `formatTimeDisplay` are the callbacks the export is
   * given.
   */
  function HistoryRowValues(e: HistoryEntry, parse: string -> Stamp, formatAction: string -> string,
                            formatDate: string -> string, formatTimeDisplay: Option<string> -> string): (values: seq<CellValue>)
    ensures |values| == |HistoryHeaders|
    ensures values[0] == TextValue(formatAction(e.action))
    ensures values[1] == TextValue(if Truthy(e.details.ownerName) then e.details.ownerName.value else NotAvailable)
    ensures values[2] == TextValue(if Truthy(e.details.building) then e.details.building.value else NotAvailable)
    ensures values[3] == TextValue(if parse(HistoryDate(e)).At? then formatDate(HistoryDate(e)) else NotAvailable)
    ensures values[4] == TextValue(formatTimeDisplay(e.eventDetails))
    ensures values[5] == TextValue(if Truthy(e.userName) then e.userName.value else NotAvailable)
  {
    var date := HistoryDate(e);
    [ TextValue(formatAction(e.action)),
      TextValue(OrElse(e.details.ownerName, NotAvailable)),
      TextValue(OrElse(e.details.building, NotAvailable)),
      TextValue(if parse(date).At? then formatDate(date) else NotAvailable),
      TextValue(formatTimeDisplay(e.eventDetails)),
      TextValue(OrElse(e.userName, NotAvailable)) ]
  }

  /**
   * Every entry that survives the year filter has a valid date, so its Date
   * column is always `formatDate` of that date and never "N/A".
   */
  lemma KeptEntriesHaveDates(history: seq<HistoryEntry>, parse: string -> Stamp, year: int,
                             formatAction: string -> string, formatDate: string -> string,
                             formatTimeDisplay: Option<string> -> string)
    ensures forall e :: e in CurrentYearHistory(history, parse, year) ==>
      HistoryRowValues(e, parse, formatAction, formatDate, formatTimeDisplay)[3] == TextValue(formatDate(HistoryDate(e)))
  {
  }

  /** The row values of every kept entry, in order. */
  function HistoryTable(kept: seq<HistoryEntry>, parse: string -> Stamp, formatAction: string -> string,
                        formatDate: string -> string, formatTimeDisplay: Option<string> -> string): (rows: seq<seq<CellValue>>)
    ensures |rows| == |kept| && forall k :: 0 <= k < |rows| ==> |rows[k]| == |HistoryHeaders|
    ensures forall k :: 0 <= k < |kept| ==> rows[k] == HistoryRowValues(kept[k], parse, formatAction, formatDate, formatTimeDisplay)
  {
    seq(|kept|, k requires 0 <= k < |kept| => HistoryRowValues(kept[k], parse, formatAction, formatDate, formatTimeDisplay))
  }

  /**
   * `rows[k]` becomes the values of sheet row k + 3, each row `width` cells
   * wide, on a sheet that holds nothing from row 3 on.
   */
  method WriteRows(sheet: Worksheet, rows: seq<seq<CellValue>>, width: nat)
    requires forall k :: 0 <= k < |rows| ==> |rows[k]| == width
    requires forall p :: p in sheet.cells ==> p.0 < 3
    modifies sheet
    ensures sheet.merges == old(sheet.merges)
    ensures forall p :: p in sheet.cells <==> p in old(sheet.cells) || (3 <= p.0 < |rows| + 3 && 1 <= p.1 <= width)
    ensures forall q, c :: 3 <= q < |rows| + 3 && 1 <= c <= width ==> sheet.cells[(q, c)] == rows[q - 3][c - 1]
    ensures forall p :: p in old(sheet.cells) ==> sheet.cells[p] == old(sheet.cells)[p]
  {
    var k := 0;
    while k < |rows|
      invariant 0 <= k <= |rows|
      invariant sheet.merges == old(sheet.merges)
      invariant forall p :: p in sheet.cells <==> p in old(sheet.cells) || (3 <= p.0 < k + 3 && 1 <= p.1 <= width)
      invariant forall q, c :: 3 <= q < k + 3 && 1 <= c <= width ==> sheet.cells[(q, c)] == rows[q - 3][c - 1]
      invariant forall p :: p in old(sheet.cells) ==> sheet.cells[p] == old(sheet.cells)[p]
    {
      sheet.SetRowValues(k + 3, rows[k]);
      k := k + 1;
    }
  }

  /**
   * What the history sheet holds: the title in A1, the headers on row 2,
   * and the k-th entry kept by the year filter on row k + 3; nothing else.
   */
  ghost predicate HistorySheetLayout(cells: map<Position, CellValue>, kept: seq<HistoryEntry>, parse: string -> Stamp,
                                     formatAction: string -> string, formatDate: string -> string,
                                     formatTimeDisplay: Option<string> -> string)
  {
    && (forall p :: p in cells <==>
          p == (1, 1) || ((p.0 == 2 || 3 <= p.0 < |kept| + 3) && 1 <= p.1 <= |HistoryHeaders|))
    && cells[(1, 1)] == TextValue(HistoryTitle)
    && (forall c :: 1 <= c <= |HistoryHeaders| ==> cells[(2, c)] == TextValue(HistoryHeaders[c - 1]))
    && (forall q, c :: 3 <= q < |kept| + 3 && 1 <= c <= |HistoryHeaders| ==>
          cells[(q, c)] == HistoryRowValues(kept[q - 3], parse, formatAction, formatDate, formatTimeDisplay)[c - 1])
  }

  /** `createHistorySheet()`, without the styling. */
  method CreateHistorySheet(workbook: Workbook, history: seq<HistoryEntry>, currentYear: int, parse: string -> Stamp,
                            formatAction: string -> string, formatDate: string -> string,
                            formatTimeDisplay: Option<string> -> string) returns (sheet: Worksheet)
    modifies workbook
    ensures fresh(sheet) && sheet.name == HistoryTitle && workbook.sheets == old(workbook.sheets) + [sheet]
    ensures sheet.merges == [((1, 1), (1, |HistoryHeaders|))]
    ensures HistorySheetLayout(sheet.cells, CurrentYearHistory(history, parse, currentYear), parse,
                               formatAction, formatDate, formatTimeDisplay)
  {
    sheet := workbook.AddWorksheet(HistoryTitle);
    TitlesSpanHeaders();
    WriteTitle(sheet, HistoryTitleRange, HistoryTitle, HistoryHeaders);
    WriteHistoryRows(sheet, CurrentYearHistory(history, parse, currentYear), parse, formatAction, formatDate, formatTimeDisplay);
  }

  /**
   * The `filter` and `forEach` of `createHistorySheet`: the k-th kept entry's
   * values on sheet row k + 3, below the title and headers.
   */
  method WriteHistoryRows(sheet: Worksheet, kept: seq<HistoryEntry>, parse: string -> Stamp,
                          formatAction: string -> string, formatDate: string -> string,
                          formatTimeDisplay: Option<string> -> string)
    requires TitledHeaders(sheet.cells, HistoryTitle, HistoryHeaders)
    modifies sheet
    ensures sheet.merges == old(sheet.merges)
    ensures HistorySheetLayout(sheet.cells, kept, parse, formatAction, formatDate, formatTimeDisplay)
  {
    ghost var before := sheet.cells;
    var rows := HistoryTable(kept, parse, formatAction, formatDate, formatTimeDisplay);
    WriteRows(sheet, rows, |HistoryHeaders|);
    HistoryLayoutFrom(before, sheet.cells, kept, rows, parse, formatAction, formatDate, formatTimeDisplay);
  }

  /** The title and headers, then the written entry rows, make up the history sheet's layout. */
  lemma HistoryLayoutFrom(before: map<Position, CellValue>, after: map<Position, CellValue>, kept: seq<HistoryEntry>,
                          rows: seq<seq<CellValue>>, parse: string -> Stamp, formatAction: string -> string,
                          formatDate: string -> string, formatTimeDisplay: Option<string> -> string)
    requires TitledHeaders(before, HistoryTitle, HistoryHeaders)
    requires |rows| == |kept| && forall k :: 0 <= k < |rows| ==> |rows[k]| == |HistoryHeaders|
    requires forall k :: 0 <= k < |kept| ==> rows[k] == HistoryRowValues(kept[k], parse, formatAction, formatDate, formatTimeDisplay)
    requires forall p :: p in after <==> p in before || (3 <= p.0 < |rows| + 3 && 1 <= p.1 <= |HistoryHeaders|)
    requires forall q, c :: 3 <= q < |rows| + 3 && 1 <= c <= |HistoryHeaders| ==> after[(q, c)] == rows[q - 3][c - 1]
    requires forall p :: p in before ==> after[p] == before[p]
    ensures HistorySheetLayout(after, kept, parse, formatAction, formatDate, formatTimeDisplay)
  {
  }

  /** `res.data || []`. */
  function OrEmpty<T>(data: Option<seq<T>>): (items: seq<T>)
    ensures data.None? ==> items == []
    ensures data.Some? ==> items == data.value
  {
    match data
    case None => []
    case Some(items) => items
  }

  const OneThreeNorth := "One Three North"
  const TwoThreeNorth := "Two Three North"

  /** The two building sheets of the export, in order, each laid out from its own reservations. */
  method AddBuildingSheets(workbook: Workbook, oneThreeNorth: seq<Reservation>, twoThreeNorth: seq<Reservation>,
                           currentYear: nat) returns (first: Worksheet, second: Worksheet)
    modifies workbook
    ensures fresh(first) && fresh(second) && workbook.sheets == old(workbook.sheets) + [first, second]
    ensures first.name == OneThreeNorth && second.name == TwoThreeNorth
    ensures first.merges == [((1, 1), (1, |BuildingHeaders|))] && second.merges == [((1, 1), (1, |BuildingHeaders|))]
    ensures BuildingSheetLayout(first.cells, OneThreeNorth, Fill(EmptyGrid(), CurrentYearReservations(oneThreeNorth, currentYear)))
    ensures BuildingSheetLayout(second.cells, TwoThreeNorth, Fill(EmptyGrid(), CurrentYearReservations(twoThreeNorth, currentYear)))
  {
    first := CreateBuildingSheet(workbook, oneThreeNorth, OneThreeNorth, OneThreeNorth, currentYear);
    ghost var firstCells := first.cells;
    second := CreateBuildingSheet(workbook, twoThreeNorth, TwoThreeNorth, TwoThreeNorth, currentYear);
    assert first.cells == firstCells;
  }

  /**
   * `handleExport` once the three fetches have answered: the two building
   * sheets and the history sheet, in that order, and the file name. The
   * fetched data, the current year and the callbacks are its inputs.
   */
  method HandleExport(oneThreeNorth: Option<seq<Reservation>>, twoThreeNorth: Option<seq<Reservation>>,
                      history: Option<seq<HistoryEntry>>, currentYear: nat, parse: string -> Stamp,
                      formatAction: string -> string, formatDate: string -> string,
                      formatTimeDisplay: Option<string> -> string) returns (workbook: Workbook, fileName: string)
    ensures fresh(workbook) && |workbook.sheets| == 3
    ensures workbook.sheets[0].name == OneThreeNorth && workbook.sheets[1].name == TwoThreeNorth
    ensures workbook.sheets[2].name == HistoryTitle
    ensures workbook.sheets[0].merges == [((1, 1), (1, |BuildingHeaders|))]
    ensures workbook.sheets[1].merges == [((1, 1), (1, |BuildingHeaders|))]
    ensures workbook.sheets[2].merges == [((1, 1), (1, |HistoryHeaders|))]
    ensures BuildingSheetLayout(workbook.sheets[0].cells, OneThreeNorth,
                                Fill(EmptyGrid(), CurrentYearReservations(OrEmpty(oneThreeNorth), currentYear)))
    ensures BuildingSheetLayout(workbook.sheets[1].cells, TwoThreeNorth,
                                Fill(EmptyGrid(), CurrentYearReservations(OrEmpty(twoThreeNorth), currentYear)))
    ensures HistorySheetLayout(workbook.sheets[2].cells, CurrentYearHistory(OrEmpty(history), parse, currentYear),
                               parse, formatAction, formatDate, formatTimeDisplay)
    ensures fileName == "Vesta_" + Decimal(currentYear) + ".xlsx"
  {
    workbook := new Workbook();
    var first, second := AddBuildingSheets(workbook, OrEmpty(oneThreeNorth), OrEmpty(twoThreeNorth), currentYear);
    ghost var firstCells, secondCells := first.cells, second.cells;
    var third := CreateHistorySheet(workbook, OrEmpty(history), currentYear, parse, formatAction, formatDate, formatTimeDisplay);
    assert workbook.sheets == [first, second, third];
    assert first.cells == firstCells && second.cells == secondCells;
    fileName := "Vesta_" + Decimal(currentYear) + ".xlsx";
  }
}
