/**
 * The part of a spreadsheet workbook that the export uses: named worksheets
 * whose cells hold text or numbers, addressed by (row, column) from 1 or by
 * "A1"-style addresses with one column letter, and merged ranges.
 */
module Spreadsheet {
  import opened Wrappers
  import opened Text

  datatype CellValue = TextValue(text: string) | NumberValue(number: int)

  /** (row, column), both counted from 1. */
  type Position = (nat, nat)

  /** `String.fromCharCode(65 + index)`: the letter of the index-th column from 0. */
  function ColumnLetter(index: nat): (c: char)
    requires index < 26
    ensures 'A' <= c <= 'Z'
  {
    (65 + index) as char
  }

  /** The address `${ColumnLetter(index)}${row}`. */
  function Address(index: nat, row: nat): (a: string)
    requires index < 26
    ensures |a| >= 2 && a[0] == ColumnLetter(index) && a[1..] == Decimal(row)
  {
    [ColumnLetter(index)] + Decimal(row)
  }

  /** The position an address names, if it is one letter followed by a row number from 1. */
  function ParseAddress(a: string): Option<Position> {
    if |a| < 2 || !('A' <= a[0] <= 'Z') || !AllDigits(a[1..]) then None
    else
      var row := ParseDecimal(a[1..]);
      if row == 0 then None else Some((row, a[0] as int - 'A' as int + 1))
  }

  /** Column letter index + 1 of row r is the cell (r, index + 1). */
  lemma AddressParses(index: nat, row: nat)
    requires index < 26 && 1 <= row
    ensures ParseAddress(Address(index, row)) == Some((row, index + 1))
  {
    var a := Address(index, row);
    assert a[1..] == Decimal(row);
    DecimalRoundTrip(row);
  }

  /** The position of the first ':' in s, if any. */
  function ColonAt(s: string): (k: Option<nat>)
    ensures k.Some? ==> k.value < |s| && s[k.value] == ':'
  {
    if s == [] then None
    else if s[0] == ':' then Some(0)
    else match ColonAt(s[1..]) case None => None case Some(k) => Some(k + 1)
  }

  /** The corners of a range "A1:M1". */
  function ParseRange(r: string): Option<(Position, Position)> {
    match ColonAt(r)
    case None => None
    case Some(k) =>
      match (ParseAddress(r[..k]), ParseAddress(r[k + 1..]))
      case (Some(from), Some(to)) => Some((from, to))
      case _ => None
  }

  /** One worksheet. Cells never written are absent from `cells`. */
  class Worksheet {
    const name: string
    var cells: map<Position, CellValue>
    var merges: seq<(Position, Position)>

    constructor (name: string)
      ensures this.name == name && cells == map[] && merges == []
    {
      this.name := name;
      cells, merges := map[], [];
    }

    /** `mergeCells(range)`. */
    method MergeCells(range: string)
      requires ParseRange(range).Some?
      modifies this
      ensures merges == old(merges) + [ParseRange(range).value] && cells == old(cells)
    {
      merges := merges + [ParseRange(range).value];
    }

    /** `getCell(address).value = value`. */
    method SetCellAt(address: string, value: CellValue)
      requires ParseAddress(address).Some?
      modifies this
      ensures cells == old(cells)[ParseAddress(address).value := value] && merges == old(merges)
    {
      cells := cells[ParseAddress(address).value := value];
    }

    /** `getRow(row).getCell(column).value = value`. */
    method SetCell(row: nat, column: nat, value: CellValue)
      requires 1 <= row && 1 <= column
      modifies this
      ensures cells == old(cells)[(row, column) := value] && merges == old(merges)
    {
      cells := cells[(row, column) := value];
    }

    /**
     * `getRow(row).values = values`: the row's earlier cells are removed and
     * values[j] goes to column j + 1.
     */
    method SetRowValues(row: nat, values: seq<CellValue>)
      requires 1 <= row
      modifies this
      ensures forall p :: p in cells <==> (p in old(cells) && p.0 != row) || (p.0 == row && 1 <= p.1 <= |values|)
      ensures forall p :: p in old(cells) && p.0 != row ==> cells[p] == old(cells)[p]
      ensures forall j :: 0 <= j < |values| ==> cells[(row, j + 1)] == values[j]
      ensures merges == old(merges)
    {
      var kept := map p | p in cells && p.0 != row :: cells[p];
      var written := map j: nat | 1 <= j <= |values| :: (row, j) := values[j - 1];
      cells := kept + written;
      forall j | 0 <= j < |values|
        ensures cells[(row, j + 1)] == values[j]
      {
        assert (row, j + 1) in written;
      }
    }
  }

  /** The workbook: its worksheets in the order they were added. */
  class Workbook {
    var sheets: seq<Worksheet>

    constructor ()
      ensures sheets == []
    {
      sheets := [];
    }

    /** `addWorksheet(name)`: a new, empty sheet at the end. */
    method AddWorksheet(name: string) returns (sheet: Worksheet)
      modifies this
      ensures fresh(sheet) && sheet.name == name && sheet.cells == map[] && sheet.merges == []
      ensures sheets == old(sheets) + [sheet]
    {
      sheet := new Worksheet(name);
      sheets := sheets + [sheet];
    }
  }
}
